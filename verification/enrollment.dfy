/** The registration screen: a guided three-pose capture that collects image URIs,
    a profile form, and one batched registration request. Camera capture, image
    normalisation and file writes are abstract outcomes passed in; alerts are
    recorded as a `Notice`. */
module EnrollmentScreen {
  import opened Values
  import Api
  import Store

  datatype CaptureStep = CaptureStep(id: nat, title: string, icon: string, instruction: string)

  const CaptureSteps: seq<CaptureStep> := [
    CaptureStep(1, "Chính diện", "person", "Nhìn thẳng vào camera"),
    CaptureStep(2, "Nghiêng trái", "arrow-back", "Xoay mặt sang trái 45°"),
    CaptureStep(3, "Nghiêng phải", "arrow-forward", "Xoay mặt sang phải 45°")
  ]

  /** Index of the last pose. */
  const LastStep: nat := |CaptureSteps| - 1

  /** What the user was told. */
  datatype Notice =
    | PermissionMissing
    | CameraNotReady
    | CameraMountFailed
    | WebImageUnavailable
    | CaptureFailed
    | NoImages
    | MissingIdentity
    | Registered
    | RegisterFailed(message: string)

  const RegisterFailedDefault: string := "Không thể đăng ký khuôn mặt. Vui lòng thử lại."

  /** What the camera and image pipeline did for one shot: taking or normalising the
      picture threw, or it produced a normalised file (with the base64 payloads the
      web platform asks for) and, on the web, the cache write threw or not. */
  datatype ShotRun =
    | ShotThrew
    | Shot(photoBase64: Option<string>, savedUri: string, savedBase64: Option<string>, writeThrows: bool)

  datatype ShotResult = Kept(uri: string) | Dropped(notice: Notice)

  /** The URI a shot leaves behind. On the web the base64 payload is written to
      `<cache>reg_<now>.jpg`; a shot without any base64 payload is refused there. */
  function ShotOutcome(run: ShotRun, onWeb: bool, now: nat, cacheDir: string): (r: ShotResult)
    ensures run.ShotThrew? ==> r == Dropped(CaptureFailed)
    ensures run.Shot? && !onWeb ==> r == Kept(run.savedUri)
    ensures run.Shot? && onWeb && OrElse(run.savedBase64, OrElse(run.photoBase64, "")) == "" ==>
      r == Dropped(WebImageUnavailable)
    ensures r.Kept? && onWeb ==> r.uri == cacheDir + "reg_" + Decimal(now) + ".jpg"
    ensures r.Dropped? ==> r.notice == CaptureFailed || r.notice == WebImageUnavailable
  {
    match run
    case ShotThrew => Dropped(CaptureFailed)
    case Shot(photoBase64, savedUri, savedBase64, writeThrows) =>
      if !onWeb then Kept(savedUri)
      else if OrElse(savedBase64, OrElse(photoBase64, "")) == "" then Dropped(WebImageUnavailable)
      else if writeThrows then Dropped(CaptureFailed)
      else Kept(cacheDir + "reg_" + Decimal(now) + ".jpg")
  }

  /** The screen's enrollment state as one value. */
  datatype Session = Session(
    images: seq<string>, step: nat,
    name: string, studentId: string, department: string, userClass: string, room: string)

  const Fresh: Session := Session([], 0, "", "", "", "", "")

  /** What the screen can reach: never more images than poses, and the step
      cursor always on a pose. */
  predicate InRange(s: Session) {
    |s.images| <= |CaptureSteps| && s.step <= LastStep
  }

  /** A kept shot is appended at the end of the list; the cursor moves on unless it
      is already on the last pose. */
  function AfterCapture(s: Session, uri: string): (r: Session)
    ensures r.images == s.images + [uri]
    ensures r.step == (if s.step < LastStep then s.step + 1 else s.step)
    ensures r.(images := s.images, step := s.step) == s
  {
    s.(images := s.images + [uri], step := if s.step < LastStep then s.step + 1 else s.step)
  }

  /** JavaScript `xs.splice(i, 1)` on a copy, for a non-negative index. */
  function Splice(xs: seq<string>, i: nat): (r: seq<string>)
    ensures i < |xs| ==> |r| == |xs| - 1
    ensures i < |xs| ==> r[..i] == xs[..i] && r[i..] == xs[i + 1..]
    ensures i < |xs| ==> multiset(r) + multiset{xs[i]} == multiset(xs)
    ensures i >= |xs| ==> r == xs
  {
    if i < |xs| then
      assert xs == xs[..i] + [xs[i]] + xs[i + 1..];
      xs[..i] + xs[i + 1..]
    else xs
  }

  /** Retaking removes the image at `index`; the cursor jumps to `index` only when
      it was on the last pose. */
  function AfterRetake(s: Session, index: nat): (r: Session)
    ensures r.images == Splice(s.images, index)
    ensures s.step >= LastStep ==> r.step == index
    ensures s.step < LastStep ==> r.step == s.step
    ensures r.(images := s.images, step := s.step) == s
  {
    s.(images := Splice(s.images, index), step := if s.step >= LastStep then index else s.step)
  }

  /** The validation of `handleSubmit`: images first, then the trimmed name and
      student id. */
  function SubmitCheck(s: Session): Option<Notice>
  {
    if |s.images| < 1 then Some(NoImages)
    else if JsTrim(s.name) == "" || JsTrim(s.studentId) == "" then Some(MissingIdentity)
    else None
  }

  /** The profile handed to the client: every field trimmed. */
  function ProfileOf(s: Session): Api.ProfileArg
  {
    Api.ProfileArg(Some(JsTrim(s.name)), Some(JsTrim(s.studentId)), Some(JsTrim(s.department)),
                   Some(JsTrim(s.userClass)), Some(JsTrim(s.room)))
  }

  /** When the screen's own checks pass, the client's checks pass too, so the
      request is always built. */
  lemma ScreenCheckImpliesClientCheck(s: Session)
    requires SubmitCheck(s).None?
    ensures Api.RegisterProblem(Api.List(s.images), Some(ProfileOf(s))).None?
  {
    assert JsTrim(s.name) != "" && JsTrim(s.studentId) != "";
    var p := ProfileOf(s);
    assert Api.Truthy(p.name) && Api.Truthy(p.studentId);
    assert |s.images| > 0;
  }

  // ---------------------------------------------------------------------------
  // Properties of the capture sequence

  /** What the buttons of the screen can trigger: a capture (the camera view is
      shown while fewer images than poses are held) and a retake of a held image
      (a delete button on each thumbnail below three images, a retake button on
      each image of the preview at three). */
  datatype Action = Shoot(uri: string) | Redo(index: nat)

  /** One button press. A capture adds an image only while a pose is left; a
      retake removes the held image it names and keeps the others in order. */
  function Apply(s: Session, a: Action): (r: Session)
    ensures a.Shoot? ==>
      r.images == (if |s.images| < |CaptureSteps| then s.images + [a.uri] else s.images)
    ensures a.Redo? && a.index < |s.images| ==>
      |r.images| == |s.images| - 1 && multiset(r.images) + multiset{s.images[a.index]} == multiset(s.images)
      && r.images[..a.index] == s.images[..a.index] && r.images[a.index..] == s.images[a.index + 1..]
    ensures a.Redo? && a.index >= |s.images| ==> r == s
    ensures InRange(s) ==> InRange(r)
    ensures r.(images := s.images, step := s.step) == s
  {
    match a
    case Shoot(uri) => if |s.images| < |CaptureSteps| then AfterCapture(s, uri) else s
    case Redo(i) => if i < |s.images| then AfterRetake(s, i) else s
  }

  function Replay(s: Session, actions: seq<Action>): Session
    decreases |actions|
  {
    if actions == [] then s else Replay(Apply(s, actions[0]), actions[1..])
  }

  /** Whatever the user does, the list never holds more images than poses and the
      cursor never leaves the poses. */
  lemma {:induction false} ReplayStaysInRange(s: Session, actions: seq<Action>)
    requires InRange(s)
    ensures InRange(Replay(s, actions))
    decreases |actions|
  {
    if actions != [] {
      var next := Apply(s, actions[0]);
      assert InRange(next);
      ReplayStaysInRange(next, actions[1..]);
    }
  }

  /** Replaying two actions applies them in order. */
  lemma ReplayTwo(s: Session, a1: Action, a2: Action)
    ensures Replay(s, [a1, a2]) == Apply(Apply(s, a1), a2)
  {
    assert [a1, a2][1..] == [a2];
    assert [a2][1..] == [];
    assert Replay(Apply(s, a1), [a2]) == Replay(Apply(Apply(s, a1), a2), []);
  }

  /** Replaying three actions applies them in order. */
  lemma ReplayThree(s: Session, a1: Action, a2: Action, a3: Action)
    ensures Replay(s, [a1, a2, a3]) == Apply(Apply(Apply(s, a1), a2), a3)
  {
    assert [a1, a2, a3][1..] == [a2, a3];
    assert Replay(s, [a1, a2, a3]) == Replay(Apply(s, a1), [a2, a3]);
    ReplayTwo(Apply(s, a1), a2, a3);
  }

  /** Three captures from a fresh screen fill the list in order, leave the cursor on
      the last pose and make submission depend only on the profile. */
  lemma ThreeShots(a: string, b: string, c: string)
    ensures Replay(Fresh, [Shoot(a), Shoot(b), Shoot(c)]).images == [a, b, c]
    ensures Replay(Fresh, [Shoot(a), Shoot(b), Shoot(c)]).step == LastStep
    ensures SubmitCheck(Replay(Fresh, [Shoot(a), Shoot(b), Shoot(c)])) == Some(MissingIdentity)
  {
    ReplayThree(Fresh, Shoot(a), Shoot(b), Shoot(c));
    var s1 := AfterCapture(Fresh, a);
    assert s1.images == [a] && s1.step == 1;
    var s2 := AfterCapture(s1, b);
    assert s2.images == [a, b] && s2.step == LastStep;
    var s3 := AfterCapture(s2, c);
    assert s3.images == [a, b, c] && s3.step == LastStep;
  }

  /** Retaking a pose and shooting again does not refill that pose's slot: the new
      image goes to the end, after the images that were shifted down. */
  lemma RetakeMovesImageToEnd(a: string, b: string, c: string, x: string)
    ensures var full := Session([a, b, c], LastStep, "", "", "", "", "");
      var s := Replay(full, [Redo(0), Shoot(x)]);
      s.images == [b, c, x] && s.step == 1
  {
    var full := Session([a, b, c], LastStep, "", "", "", "", "");
    ReplayTwo(full, Redo(0), Shoot(x));
    var s1 := Apply(full, Redo(0));
    assert s1 == AfterRetake(full, 0);
    assert Splice([a, b, c], 0) == [b, c];
    var s2 := Apply(s1, Shoot(x));
    assert s2 == AfterCapture(s1, x);
  }

  /** Deleting the only thumbnail empties the list but leaves the cursor on the
      second pose, so the screen asks for pose 2 before pose 1 is held again. */
  lemma ThumbnailRetakeLeavesCursorAhead(a: string)
    ensures Replay(Fresh, [Shoot(a), Redo(0)]).images == []
    ensures Replay(Fresh, [Shoot(a), Redo(0)]).step == 1
  {
    ReplayTwo(Fresh, Shoot(a), Redo(0));
    var s1 := Apply(Fresh, Shoot(a));
    assert s1.images == [a] && s1.step == 1;
    var s2 := Apply(s1, Redo(0));
    assert s2 == AfterRetake(s1, 0);
    assert Splice([a], 0) == [];
  }

  /** A second retake while the cursor is off the last pose leaves the cursor
      where it was: the screen then asks for pose 1 while the next image is stored
      at position 2, after the two images it keeps. */
  lemma RetakeCanLeaveCursorBehind(a: string, b: string, c: string, x: string)
    ensures var full := Session([a, b, c], LastStep, "", "", "", "", "");
      var s := Replay(full, [Redo(0), Shoot(x), Redo(0)]);
      s.images == [c, x] && s.step == 1
  {
    var full := Session([a, b, c], LastStep, "", "", "", "", "");
    ReplayThree(full, Redo(0), Shoot(x), Redo(0));
    var s1 := Apply(full, Redo(0));
    assert Splice([a, b, c], 0) == [b, c];
    assert s1.images == [b, c] && s1.step == 0;
    var s2 := Apply(s1, Shoot(x));
    assert s2.images == [b, c, x] && s2.step == 1;
    var s3 := Apply(s2, Redo(0));
    assert s3 == AfterRetake(s2, 0);
    assert Splice([b, c, x], 0) == [c, x];
  }

  /** After a successful registration is acknowledged the screen is cleared, so a
      second submission is refused for lack of images. */
  lemma SubmitAfterResetRefused()
    ensures SubmitCheck(Fresh) == Some(NoImages)
  {
  }

  // ---------------------------------------------------------------------------
  // Submitting

  /** What the user is shown after pressing submit. */
  function SubmitNotice(s: Session, url: string, http: Api.HttpOutcome): Notice
  {
    if SubmitCheck(s).Some? then SubmitCheck(s).value
    else if http.Answered? then Registered
    else RegisterFailed(Api.ErrorText(http.error, url, Api.Register))
  }

  /** The request and the notice of `handleSubmit`: a session the screen refuses
      sends nothing; otherwise the held images go out, in order, with the trimmed
      profile, and the notice reports the server's answer or the client's
      message. */
  method SendRegistration(s: Session, url: string, http: Api.HttpOutcome)
    returns (sent: Option<Api.Request>, shown: Notice)
    ensures SubmitCheck(s).Some? ==> sent.None? && shown == SubmitCheck(s).value
    ensures SubmitCheck(s).None? ==>
      sent == Some(Api.Request(Api.POST, url + "/register", Api.RegisterForm(s.images, ProfileOf(s)),
                               Api.RegisterTimeoutMs))
    ensures SubmitCheck(s).None? && http.Answered? ==> shown == Registered
    ensures SubmitCheck(s).None? && http.Rejected? ==>
      shown == RegisterFailed(Api.ErrorText(http.error, url, Api.Register))
    ensures shown == SubmitNotice(s, url, http)
  {
    if |s.images| < 1 {
      return None, NoImages;
    }
    if JsTrim(s.name) == "" || JsTrim(s.studentId) == "" {
      return None, MissingIdentity;
    }
    ScreenCheckImpliesClientCheck(s);
    var ex := Api.RegisterFace(Api.List(s.images), Some(ProfileOf(s)), url, http);
    sent := ex.sent;
    if ex.reply.Resolved? {
      shown := Registered;
    } else {
      FailureNoticeText(http, url);
      shown := RegisterFailed(OrElse(Some(ex.reply.message), RegisterFailedDefault));
    }
  }

  // ---------------------------------------------------------------------------
  // The screen

  /** A failed registration shows the client's message, which is never empty, so
      the screen's own default is never used. */
  lemma FailureNoticeText(http: Api.HttpOutcome, url: string)
    requires http.Rejected?
    ensures Api.ReplyOf(http, url, Api.Register).Thrown?
    ensures OrElse(Some(Api.ReplyOf(http, url, Api.Register).message), RegisterFailedDefault)
      == Api.ErrorText(http.error, url, Api.Register)
  {
  }

  datatype ProfileField = NameField | StudentIdField | DepartmentField | ClassField | RoomField

  class Enrollment {
    const store: Store.AppStore
    var permissionGranted: bool
    var cameraMounted: bool
    var cameraReady: bool
    var capturedImages: seq<string>
    var currentStep: nat
    var name: string
    var studentId: string
    var department: string
    var userClass: string
    var room: string
    var isSubmitting: bool
    var notice: Option<Notice>
    /** The success alert is showing and waits for its OK button. */
    var awaitingAck: bool

    function Snapshot(): Session
      reads this
    {
      Session(capturedImages, currentStep, name, studentId, department, userClass, room)
    }

    ghost predicate Valid()
      reads this
    {
      InRange(Snapshot()) && !isSubmitting
    }

    constructor (store: Store.AppStore, permissionGranted: bool)
      ensures Valid() && Snapshot() == Fresh
      ensures this.store == store && this.permissionGranted == permissionGranted
      ensures this.cameraMounted == permissionGranted && !cameraReady
      ensures notice.None? && !awaitingAck
    {
      this.store := store;
      this.permissionGranted := permissionGranted;
      cameraMounted := permissionGranted;
      cameraReady := false;
      capturedImages := [];
      currentStep := 0;
      name, studentId, department, userClass, room := "", "", "", "", "";
      isSubmitting := false;
      notice := None;
      awaitingAck := false;
    }

    method OnCameraReady()
      modifies this
      ensures cameraReady && Snapshot() == old(Snapshot()) && cameraMounted == old(cameraMounted)
      ensures isSubmitting == old(isSubmitting) && notice == old(notice) && awaitingAck == old(awaitingAck)
    {
      cameraReady := true;
    }

    method OnMountError()
      modifies this
      ensures !cameraReady && Snapshot() == old(Snapshot()) && cameraMounted == old(cameraMounted)
      ensures isSubmitting == old(isSubmitting) && awaitingAck == old(awaitingAck)
      ensures notice == Some(CameraMountFailed)
    {
      cameraReady := false;
      notice := Some(CameraMountFailed);
    }

    /** Typing into one of the five profile inputs changes that field only. */
    method Edit(field: ProfileField, value: string)
      modifies this
      ensures Snapshot() == match field
        case NameField => old(Snapshot()).(name := value)
        case StudentIdField => old(Snapshot()).(studentId := value)
        case DepartmentField => old(Snapshot()).(department := value)
        case ClassField => old(Snapshot()).(userClass := value)
        case RoomField => old(Snapshot()).(room := value)
      ensures cameraReady == old(cameraReady) && cameraMounted == old(cameraMounted)
      ensures isSubmitting == old(isSubmitting) && notice == old(notice) && awaitingAck == old(awaitingAck)
    {
      match field
      case NameField => name := value;
      case StudentIdField => studentId := value;
      case DepartmentField => department := value;
      case ClassField => userClass := value;
      case RoomField => room := value;
    }

    /** `captureImage`: a shot is kept only when the camera is mounted and ready and
        the pipeline produced a URI; a refused or failed shot changes neither the
        list nor the cursor. */
    method Capture(run: ShotRun, onWeb: bool, now: nat, cacheDir: string)
      requires Valid() && |capturedImages| < |CaptureSteps|
      modifies this
      ensures Valid()
      ensures !old(cameraMounted && cameraReady) ==>
        Snapshot() == old(Snapshot()) && notice == Some(CameraNotReady)
      ensures old(cameraMounted && cameraReady) && ShotOutcome(run, onWeb, now, cacheDir).Kept? ==>
        Snapshot() == AfterCapture(old(Snapshot()), ShotOutcome(run, onWeb, now, cacheDir).uri)
        && notice == old(notice)
      ensures old(cameraMounted && cameraReady) && ShotOutcome(run, onWeb, now, cacheDir).Dropped? ==>
        Snapshot() == old(Snapshot()) && notice == Some(ShotOutcome(run, onWeb, now, cacheDir).notice)
      ensures cameraReady == old(cameraReady) && cameraMounted == old(cameraMounted)
      ensures permissionGranted == old(permissionGranted) && awaitingAck == old(awaitingAck)
    {
      if !cameraMounted || !cameraReady {
        notice := Some(CameraNotReady);
        return;
      }
      var outcome := ShotOutcome(run, onWeb, now, cacheDir);
      if outcome.Dropped? {
        notice := Some(outcome.notice);
        return;
      }
      var newImages := capturedImages + [outcome.uri];
      capturedImages := newImages;
      if currentStep < LastStep {
        currentStep := currentStep + 1;
      }
    }

    /** `startCountdown`: the capture button. The permission it checks is the one
        read when the button was pressed, so a press without permission only asks
        for it and is refused. */
    method StartCountdown(run: ShotRun, onWeb: bool, now: nat, cacheDir: string)
      requires Valid() && |capturedImages| < |CaptureSteps|
      modifies this
      ensures Valid()
      ensures !old(permissionGranted) ==> Snapshot() == old(Snapshot()) && notice == Some(PermissionMissing)
      ensures old(permissionGranted) && !old(cameraMounted && cameraReady) ==>
        Snapshot() == old(Snapshot()) && notice == Some(CameraNotReady)
      ensures old(permissionGranted && cameraMounted && cameraReady) ==>
        Snapshot() == (match ShotOutcome(run, onWeb, now, cacheDir)
                       case Kept(uri) => AfterCapture(old(Snapshot()), uri)
                       case Dropped(_) => old(Snapshot()))
      ensures old(permissionGranted && cameraMounted && cameraReady) ==>
        notice == (match ShotOutcome(run, onWeb, now, cacheDir)
                   case Kept(_) => old(notice)
                   case Dropped(n) => Some(n))
      ensures cameraReady == old(cameraReady) && cameraMounted == old(cameraMounted)
      ensures permissionGranted == old(permissionGranted) && awaitingAck == old(awaitingAck)
    {
      if !permissionGranted {
        notice := Some(PermissionMissing);
        return;
      }
      if !cameraReady || !cameraMounted {
        notice := Some(CameraNotReady);
        return;
      }
      Capture(run, onWeb, now, cacheDir);
    }

    /** `retakePhoto`: offered for each held image. */
    method Retake(index: nat)
      requires Valid() && index < |capturedImages|
      modifies this
      ensures Valid()
      ensures Snapshot() == AfterRetake(old(Snapshot()), index)
      ensures |capturedImages| == |old(capturedImages)| - 1
      ensures cameraReady == old(cameraReady) && cameraMounted == old(cameraMounted)
      ensures notice == old(notice) && awaitingAck == old(awaitingAck) && permissionGranted == old(permissionGranted)
    {
      var newImages := capturedImages;
      newImages := Splice(newImages, index);
      capturedImages := newImages;
      if currentStep >= LastStep {
        currentStep := index;
      }
    }

    /** `handleSubmit`: the screen's part around `SendRegistration`. The busy flag
        is raised once the checks pass and lowered in every case; the request is
        one step here, so the flag is down again whenever another event can run.
        Nothing is cleared here: a success only raises the alert whose OK button
        clears the screen. */
    method Submit(http: Api.HttpOutcome) returns (sent: Option<Api.Request>)
      requires Valid()
      modifies this
      ensures Valid()
      ensures Snapshot() == old(Snapshot())
      ensures notice == Some(SubmitNotice(old(Snapshot()), old(store.serverUrl), http))
      ensures awaitingAck == (old(awaitingAck) || notice == Some(Registered))
      ensures sent.Some? <==> SubmitCheck(old(Snapshot())).None?
      ensures SubmitCheck(old(Snapshot())).None? ==>
        sent == Some(Api.Request(Api.POST, store.serverUrl + "/register",
                                 Api.RegisterForm(old(Snapshot()).images, ProfileOf(old(Snapshot()))),
                                 Api.RegisterTimeoutMs))
      ensures cameraReady == old(cameraReady) && cameraMounted == old(cameraMounted)
      ensures permissionGranted == old(permissionGranted)
    {
      if SubmitCheck(Snapshot()).None? {
        isSubmitting := true;
      }
      var shown;
      sent, shown := SendRegistration(Snapshot(), store.serverUrl, http);
      notice := Some(shown);
      awaitingAck := awaitingAck || shown.Registered?;
      isSubmitting := false;
    }

    /** The OK button of the success alert: empties the list and the five profile
        fields and puts the cursor back on the first pose. */
    method AcknowledgeSuccess()
      requires Valid() && awaitingAck
      modifies this
      ensures Valid() && Snapshot() == Fresh && !awaitingAck
      ensures cameraReady == old(cameraReady) && cameraMounted == old(cameraMounted)
      ensures notice == old(notice) && permissionGranted == old(permissionGranted)
    {
      capturedImages := [];
      name := "";
      studentId := "";
      department := "";
      userClass := "";
      room := "";
      currentStep := 0;
      awaitingAck := false;
      assert Snapshot() == Session([], 0, "", "", "", "", "");
    }
  }
}
