/** The verification screen: an auto-capture loop that photographs the visitor,
    asks the server who it is, shows the verdict for a while and mirrors its busy
    flag and its last successful verdict into the app store. Camera, network and
    timers are abstract: a capture is split into its start and its completion, and
    each display timer is a pending entry that may fire at any later point. */
module VerificationScreen {
  import opened Values
  import Api
  import Store

  const GrantedText: string := "Cửa đã được mở"
  const NotRecognizedText: string := "Không nhận diện được khuôn mặt"
  const VerifyFailedText: string := "Không thể xác thực khuôn mặt. Vui lòng thử lại."

  /** How long a verdict stays up, and the auto-capture period (milliseconds). */
  const SuccessDisplayMs: nat := 3000
  const ErrorDisplayMs: nat := 5000
  const AutoCaptureMs: nat := 5000

  /** JavaScript `a || b` on JSON values. */
  function JsOr(a: Json, b: Json): (r: Json)
    ensures JsTruthy(a) ==> r == a
    ensures !JsTruthy(a) ==> r == b
  {
    if JsTruthy(a) then a else b
  }

  /** The verdict shown for a response the server accepted. A recognised visitor is
      greeted by the profile name, else the top-level name, else `User`; anything
      else is a refusal carrying the server's message or the fixed refusal text.
      Only a greeting has a name. */
  function ResultOf(response: Json): (r: Store.UiResult)
    ensures r.success <==> JsTruthy(Field(response, "recognized"))
    ensures r.success ==> r.message == Str(GrantedText) && JsTruthy(r.name)
    ensures r.success ==> r.name in {Field(Field(Field(response, "user"), "profile"), "name"),
                                     Field(Field(response, "user"), "name"), Str("User")}
    ensures r.success && JsTruthy(Field(Field(Field(response, "user"), "profile"), "name")) ==>
      r.name == Field(Field(Field(response, "user"), "profile"), "name")
    ensures r.success && !JsTruthy(Field(Field(Field(response, "user"), "profile"), "name"))
                      && JsTruthy(Field(Field(response, "user"), "name")) ==>
      r.name == Field(Field(response, "user"), "name")
    ensures r.success && !JsTruthy(Field(Field(Field(response, "user"), "profile"), "name"))
                      && !JsTruthy(Field(Field(response, "user"), "name")) ==>
      r.name == Str("User")
    ensures !r.success ==> r.name == Null && JsTruthy(r.message)
    ensures !r.success && JsTruthy(Field(response, "message")) ==> r.message == Field(response, "message")
    ensures !r.success && !JsTruthy(Field(response, "message")) ==> r.message == Str(NotRecognizedText)
  {
    if JsTruthy(Field(response, "recognized")) then
      var user := Field(response, "user");
      Store.UiResult(true, JsOr(JsOr(Field(Field(user, "profile"), "name"), Field(user, "name")), Str("User")),
                     Str(GrantedText))
    else
      Store.UiResult(false, Null, JsOr(Field(response, "message"), Str(NotRecognizedText)))
  }

  /** The verdict shown when taking the picture or the request threw: a refusal
      carrying the error's message, or the fixed failure text when it has none. */
  function FailureResult(message: Option<string>): (r: Store.UiResult)
    ensures !r.success && r.name == Null && r.message.Str? && r.message.s != ""
    ensures message.Some? && message.value != "" ==> r.message == Str(message.value)
    ensures message.None? || message.value == "" ==> r.message == Str(VerifyFailedText)
  {
    Store.UiResult(false, Null, Str(OrElse(message, VerifyFailedText)))
  }

  /** The two display timers: after a server answer both the screen's verdict and
      the store's copy are cleared; after a failure only the screen's. */
  datatype TimerKind = ClearResultAndStore | ClearResultOnly

  /** What taking the picture did. */
  datatype CaptureOutcome = PhotoTaken(uri: string) | CaptureThrew(message: Option<string>)

  /** The screen's state together with the store it publishes into. */
  datatype HomeState = HomeState(
    permission: bool, webCameraError: bool, cameraReady: bool,
    processing: bool, result: Option<Store.UiResult>, timers: seq<TimerKind>,
    store: Store.StoreState)

  /** The camera view is rendered (so its ref is set) once permission is granted,
      unless it failed to mount on the web. */
  predicate Mounted(s: HomeState) {
    s.permission && !s.webCameraError
  }

  /** What can happen to the screen. `Complete` ends the capture in flight. */
  datatype Event =
    | Grant
    | CameraReady
    | MountError(onWeb: bool)
    | Tick
    | Press
    | Complete(outcome: CaptureOutcome, http: Api.HttpOutcome)
    | Fire(index: nat)

  /** The start of `captureAndVerify`: refused unless the camera is mounted and
      ready and no capture is running; otherwise the screen and the store go busy
      and the shown verdict is dropped. */
  function Begin(s: HomeState): HomeState
  {
    if !Mounted(s) || s.processing || !s.cameraReady then s
    else s.(processing := true, result := None, store := s.store.(isRecognizing := true))
  }

  /** The request a completed capture sent. */
  function RequestOf(outcome: CaptureOutcome, url: string, http: Api.HttpOutcome): (r: Option<Api.Request>)
    ensures outcome.PhotoTaken? <==> r.Some?
    ensures outcome.PhotoTaken? ==>
      r.value == Api.Request(Api.POST, url + "/recognize", Api.VerifyForm(Api.Uri(outcome.uri)), Api.RecognizeTimeoutMs)
  {
    match outcome
    case PhotoTaken(uri) => Api.VerifyFace(Api.Uri(uri), url, http).sent
    case CaptureThrew(_) => None
  }

  /** What the `try` block of `captureAndVerify` ends with: the server's answer, or
      the message of whatever the capture or the request threw. */
  function CaptureReply(outcome: CaptureOutcome, url: string, http: Api.HttpOutcome): Api.Reply
  {
    match outcome
    case PhotoTaken(uri) => Api.VerifyFace(Api.Uri(uri), url, http).reply
    case CaptureThrew(m) => Api.Thrown(OrElse(m, ""))
  }

  /** The end of `captureAndVerify`: a server answer is shown and published with the
      long-clearing timer; a failure is shown only, with the local timer; in every
      case the screen and the store stop being busy. */
  function Settle(s: HomeState, outcome: CaptureOutcome, http: Api.HttpOutcome): HomeState
  {
    Conclude(s, CaptureReply(outcome, s.store.serverUrl, http))
  }

  /** Shows a reply: the `try` block's success path or its `catch`, then `finally`. */
  function Conclude(s: HomeState, reply: Api.Reply): HomeState
  {
    match reply
    case Resolved(data) =>
      s.(processing := false, result := Some(ResultOf(data)), timers := s.timers + [ClearResultAndStore],
         store := s.store.(isRecognizing := false, recognitionResult := Some(ResultOf(data))))
    case Thrown(message) =>
      s.(processing := false, result := Some(FailureResult(Some(message))), timers := s.timers + [ClearResultOnly],
         store := s.store.(isRecognizing := false))
  }

  /** Drops the pending timer at `i` and applies it. */
  function FireTimer(s: HomeState, i: nat): HomeState
  {
    if i >= |s.timers| then s
    else
      var rest := s.timers[..i] + s.timers[i + 1..];
      match s.timers[i]
      case ClearResultAndStore => s.(timers := rest, result := None, store := s.store.(recognitionResult := None))
      case ClearResultOnly => s.(timers := rest, result := None)
  }

  /** One event. The interval exists only while permission is granted and the
      camera is ready, and it starts a capture only when nothing runs and no verdict
      is shown; the manual button is rendered only with permission and only checks
      that nothing runs. */
  function Step(s: HomeState, e: Event): HomeState
  {
    match e
    case Grant => s.(permission := true)
    case CameraReady => if Mounted(s) then s.(cameraReady := true, webCameraError := false) else s
    case MountError(onWeb) => s.(cameraReady := false, webCameraError := onWeb)
    case Tick =>
      if s.permission && s.cameraReady && !s.processing && s.result.None? then Begin(s) else s
    case Press => if s.permission && !s.processing then Begin(s) else s
    case Complete(outcome, http) => if s.processing then Settle(s, outcome, http) else s
    case Fire(i) => FireTimer(s, i)
  }

  function Run(s: HomeState, events: seq<Event>): HomeState
    decreases |events|
  {
    if events == [] then s else Run(Step(s, events[0]), events[1..])
  }

  /** What the screen keeps true: the store's busy flag mirrors the screen's; no
      verdict is shown while a capture runs; a shown verdict always has a timer
      pending that will clear it, and a published verdict always has a pending
      timer that will clear the store too. */
  predicate Inv(s: HomeState) {
    && s.store.isRecognizing == s.processing
    && (s.processing ==> s.result.None?)
    && (s.result.Some? ==> |s.timers| > 0)
    && (s.store.recognitionResult.Some? ==> ClearResultAndStore in s.timers)
  }

  /** The screen as it is first rendered over a store nobody else has touched. */
  function Initial(permission: bool, store: Store.StoreState): HomeState
  {
    HomeState(permission, false, false, false, None, [], store)
  }

  lemma InitialInv(permission: bool, store: Store.StoreState)
    requires !store.isRecognizing && store.recognitionResult.None?
    ensures Inv(Initial(permission, store))
  {
  }

  /** Firing a timer keeps the invariant: a fired store-clearing timer clears the
      store itself, and any other fired timer leaves the store-clearing one pending. */
  lemma {:induction false} FireKeepsInv(s: HomeState, i: nat)
    requires Inv(s)
    ensures Inv(FireTimer(s, i))
  {
    if i < |s.timers| {
      var rest := s.timers[..i] + s.timers[i + 1..];
      assert s.timers == s.timers[..i] + [s.timers[i]] + s.timers[i + 1..];
      assert multiset(s.timers) == multiset(rest) + multiset{s.timers[i]};
      if s.timers[i] == ClearResultOnly && s.store.recognitionResult.Some? {
        assert ClearResultAndStore in multiset(s.timers);
        assert ClearResultAndStore in multiset(rest);
      }
    }
  }

  /** Ending a capture keeps the invariant: the new verdict comes with its timer. */
  lemma {:induction false} SettleKeepsInv(s: HomeState, outcome: CaptureOutcome, http: Api.HttpOutcome)
    requires Inv(s) && s.processing
    ensures Inv(Settle(s, outcome, http))
  {
    var t := Settle(s, outcome, http);
    assert t.timers == s.timers + [ClearResultAndStore] || t.timers == s.timers + [ClearResultOnly];
    assert forall k :: k in s.timers ==> k in t.timers;
  }

  /** Every event keeps the invariant and leaves the store's other fields alone. */
  lemma {:induction false} StepKeepsInv(s: HomeState, e: Event)
    requires Inv(s)
    ensures Inv(Step(s, e))
    ensures Step(s, e).store == s.store.(isRecognizing := Step(s, e).store.isRecognizing,
                                         recognitionResult := Step(s, e).store.recognitionResult)
  {
    match e
    case Fire(i) => FireKeepsInv(s, i);
    case Complete(outcome, http) =>
      if s.processing {
        SettleKeepsInv(s, outcome, http);
        SettleStoreFrame(s, outcome, http);
      }
    case _ =>
  }

  /** Ending a capture writes only the store's busy flag and verdict. */
  lemma SettleStoreFrame(s: HomeState, outcome: CaptureOutcome, http: Api.HttpOutcome)
    ensures Settle(s, outcome, http).store
         == s.store.(isRecognizing := false, recognitionResult := Settle(s, outcome, http).store.recognitionResult)
  {
  }

  /** The invariant holds after any sequence of events. */
  lemma {:induction false} RunKeepsInv(s: HomeState, events: seq<Event>)
    requires Inv(s)
    ensures Inv(Run(s, events))
    decreases |events|
  {
    if events != [] {
      StepKeepsInv(s, events[0]);
      RunKeepsInv(Step(s, events[0]), events[1..]);
    }
  }

  /** At most one capture is in flight: a start while one runs changes nothing. */
  lemma NoSecondCapture(s: HomeState, e: Event)
    requires s.processing && (e == Tick || e == Press)
    ensures Step(s, e) == s
  {
  }

  /** The interval never starts a capture while a verdict is on screen, but the
      manual button does, dropping that verdict. */
  lemma AutoCaptureWaitsForVerdict(s: HomeState)
    requires s.result.Some?
    ensures Step(s, Tick) == s
    ensures s.permission && s.cameraReady && !s.webCameraError && !s.processing ==>
      Step(s, Press).processing && Step(s, Press).result.None?
  {
  }

  /** A server answer is published to the store; a failure is not, and leaves
      whatever the store held. */
  lemma SettlePublishes(s: HomeState, outcome: CaptureOutcome, http: Api.HttpOutcome)
    requires s.processing
    ensures var t := Step(s, Complete(outcome, http));
      (outcome.PhotoTaken? && http.Answered? ==>
         t.store.recognitionResult == t.result == Some(ResultOf(http.data)))
      && (outcome.CaptureThrew? || http.Rejected? ==>
         t.store.recognitionResult == s.store.recognitionResult && !t.result.value.success)
  {
  }

  /** A request rejected by the server is shown with the client's message for it,
      with the local timer, and the store only stops being busy. */
  lemma RejectionShowsClientMessage(s: HomeState, uri: string, e: Api.HttpError)
    requires s.processing
    ensures var t := Step(s, Complete(PhotoTaken(uri), Api.Rejected(e)));
      && t.result == Some(Store.UiResult(false, Null, Str(Api.ErrorText(e, s.store.serverUrl, Api.Verify))))
      && t.timers == s.timers + [ClearResultOnly]
      && t.store == s.store.(isRecognizing := false)
  {
    var msg := Api.ErrorText(e, s.store.serverUrl, Api.Verify);
    assert CaptureReply(PhotoTaken(uri), s.store.serverUrl, Api.Rejected(e)) == Api.Thrown(msg);
    assert Step(s, Complete(PhotoTaken(uri), Api.Rejected(e))) == Conclude(s, Api.Thrown(msg));
  }

  /** A timer left by an earlier verdict also clears a later one: after a greeting,
      a manual capture that fails shows its refusal, and the greeting's timer
      removes that refusal while the refusal's own timer is still pending. */
  lemma {:induction false} StaleTimerClearsNewerVerdict(s: HomeState, m: Option<string>)
    requires Inv(s) && s.permission && !s.webCameraError && s.cameraReady && !s.processing
    requires s.timers == [ClearResultAndStore] && s.result.Some? && s.result.value.success
    ensures var t := Run(s, [Press, Complete(CaptureThrew(m), Api.Answered(Null)), Fire(0)]);
      t.result.None? && t.timers == [ClearResultOnly] && t.store.recognitionResult.None?
  {
    var s1 := Step(s, Press);
    var s2 := Step(s1, Complete(CaptureThrew(m), Api.Answered(Null)));
    assert s2.timers == [ClearResultAndStore, ClearResultOnly];
    var s3 := Step(s2, Fire(0));
    assert s3.timers == [ClearResultOnly];
    var evs := [Press, Complete(CaptureThrew(m), Api.Answered(Null)), Fire(0)];
    assert Run(s3, []) == s3;
    assert evs[1..][1..][1..] == [];
    assert Run(s2, evs[1..][1..]) == s3;
    assert Run(s1, evs[1..]) == s3;
  }

  // ---------------------------------------------------------------------------
  // The screen

  class VerificationLoop {
    const store: Store.AppStore
    var permission: bool
    var webCameraError: bool
    var cameraReady: bool
    var isProcessing: bool
    var result: Option<Store.UiResult>
    /** Display timers set and not yet fired, oldest first. */
    var timers: seq<TimerKind>

    function State(): HomeState
      reads this, store
    {
      HomeState(permission, webCameraError, cameraReady, isProcessing, result, timers, store.State())
    }

    ghost predicate Valid()
      reads this, store
    {
      Inv(State())
    }

    constructor (store: Store.AppStore, permission: bool)
      requires !store.isRecognizing && store.recognitionResult.None?
      ensures this.store == store
      ensures State() == Initial(permission, old(store.State()))
      ensures Valid()
    {
      this.store := store;
      this.permission := permission;
      webCameraError := false;
      cameraReady := false;
      isProcessing := false;
      result := None;
      timers := [];
      new;
      InitialInv(permission, store.State());
    }

    method GrantPermission()
      requires Valid()
      modifies this
      ensures Valid() && State() == Step(old(State()), Grant)
    {
      permission := true;
      StepKeepsInv(old(State()), Grant);
    }

    method OnCameraReady()
      requires Valid()
      modifies this
      ensures Valid() && State() == Step(old(State()), CameraReady)
    {
      if permission && !webCameraError {
        cameraReady := true;
        webCameraError := false;
      }
      StepKeepsInv(old(State()), CameraReady);
    }

    method OnMountError(onWeb: bool)
      requires Valid()
      modifies this
      ensures Valid() && State() == Step(old(State()), MountError(onWeb))
    {
      cameraReady := false;
      webCameraError := onWeb;
      StepKeepsInv(old(State()), MountError(onWeb));
    }

    /** The guard and the first half of `captureAndVerify`. */
    method CaptureAndVerify()
      requires Valid()
      modifies this, store
      ensures Valid() && State() == Begin(old(State()))
    {
      if !permission || webCameraError || isProcessing || !cameraReady {
        return;
      }
      isProcessing := true;
      store.SetIsRecognizing(true);
      result := None;
      StepKeepsInv(old(State()), Press);
    }

    /** The interval callback. */
    method OnTick()
      requires Valid()
      modifies this, store
      ensures Valid() && State() == Step(old(State()), Tick)
    {
      if permission && cameraReady && !isProcessing && result.None? {
        CaptureAndVerify();
      }
      StepKeepsInv(old(State()), Tick);
    }

    /** The manual capture button. */
    method OnPress()
      requires Valid()
      modifies this, store
      ensures Valid() && State() == Step(old(State()), Press)
    {
      if permission && !isProcessing {
        CaptureAndVerify();
      }
      StepKeepsInv(old(State()), Press);
    }

    /** The second half of `captureAndVerify`, once the picture and the request have
        settled; returns the request that went out. */
    method Finish(outcome: CaptureOutcome, http: Api.HttpOutcome) returns (sent: Option<Api.Request>)
      requires Valid() && isProcessing
      modifies this, store
      ensures Valid() && State() == Step(old(State()), Complete(outcome, http))
      ensures sent == RequestOf(outcome, old(store.serverUrl), http)
    {
      ghost var s0 := State();
      var reply: Api.Reply;
      match outcome {
        case PhotoTaken(uri) =>
          var ex := Api.VerifyFace(Api.Uri(uri), store.serverUrl, http);
          sent := ex.sent;
          reply := ex.reply;
        case CaptureThrew(m) =>
          sent := None;
          reply := Api.Thrown(OrElse(m, ""));
      }
      assert reply == CaptureReply(outcome, s0.store.serverUrl, http);
      ShowReply(reply);
      StepKeepsInv(s0, Complete(outcome, http));
    }

    /** Shows the reply and clears both busy flags. */
    method ShowReply(reply: Api.Reply)
      modifies this, store
      ensures State() == Conclude(old(State()), reply)
    {
      match reply {
        case Resolved(data) =>
          var shown := ResultOf(data);
          result := Some(shown);
          store.SetRecognitionResult(Some(shown));
          timers := timers + [ClearResultAndStore];
        case Thrown(message) =>
          result := Some(FailureResult(Some(message)));
          timers := timers + [ClearResultOnly];
      }
      isProcessing := false;
      store.SetIsRecognizing(false);
    }

    /** A display timer fires. */
    method OnTimer(i: nat)
      requires Valid() && i < |timers|
      modifies this, store
      ensures Valid() && State() == Step(old(State()), Fire(i))
    {
      var kind := timers[i];
      timers := timers[..i] + timers[i + 1..];
      result := None;
      if kind == ClearResultAndStore {
        store.SetRecognitionResult(None);
      }
      StepKeepsInv(old(State()), Fire(i));
    }
  }
}
