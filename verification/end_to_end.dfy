/** The client and the server together: how a server answer reaches the screens
    through the HTTP library, and what the forms the client builds look like on
    arrival. The HTTP library resolves a 2xx answer with its body and rejects
    every other status with a status-class code, a fixed message naming the
    status and the response itself. */
module EndToEnd {
  import opened Values
  import Api
  import Store
  import VerificationScreen
  import EnrollmentScreen
  import opened ServerDocs
  import opened ServerRegister
  import opened ServerRecognize

  // ---------------------------------------------------------------------------
  // Answers on the way back

  /** The rejection code the HTTP library gives a status. */
  function StatusCode(status: nat): Option<string>
  {
    if 400 <= status < 500 then Some("ERR_BAD_REQUEST")
    else if 500 <= status < 600 then Some("ERR_BAD_RESPONSE")
    else None
  }

  function StatusMessage(status: nat): string
  {
    "Request failed with status code " + Decimal(status)
  }

  /** What the client receives for a server answer sent with the reason phrase
      `statusText`. */
  function Transport(a: Answer, statusText: string): (h: Api.HttpOutcome)
    ensures h.Answered? <==> 200 <= a.status < 300
  {
    if 200 <= a.status < 300 then Api.Answered(Obj(a.body))
    else
      Api.Rejected(Api.HttpError(StatusCode(a.status), Some(StatusMessage(a.status)),
                                 Some(Api.ErrorResponse(a.status, statusText, Obj(a.body)))))
  }

  /** The library's rejection message mentions neither a timeout nor a network
      error. */
  lemma StatusMessagePlain(status: nat)
    ensures !Contains(StatusMessage(status), "timeout") && !Contains(StatusMessage(status), "Network Error")
  {
    var head := "Request failed with status code ";
    var msg := StatusMessage(status);
    assert 'm' !in head && 'k' !in head;
    assert forall i :: 0 <= i < |msg| ==> msg[i] == 'm' ==> i < |head|;
    assert forall i :: 0 <= i < |msg| ==> msg[i] == 'k' ==> i < |head|;
    if Contains(msg, "timeout") {
      ContainsChars(msg, "timeout", 'm');
      assert false;
    }
    if Contains(msg, "Network Error") {
      ContainsChars(msg, "Network Error", 'k');
      assert false;
    }
  }

  /** A rejected server answer is classified as a server rejection, and the
      screens show its `error` text, else its `message` text, else the status
      line. */
  lemma RejectedAnswerText(a: Answer, statusText: string, url: string)
    requires !(200 <= a.status < 300)
    ensures var e := Transport(a, statusText).error;
      Api.Classify(e).ServerRejected?
      && Api.ErrorText(e, url, Api.Verify)
         == OrElse(Api.BackendDetail(Obj(a.body)), Api.StatusLine(Api.ErrorResponse(a.status, statusText, Obj(a.body))))
  {
    StatusMessagePlain(a.status);
    Api.RejectedMessage(Transport(a, statusText).error, url, Api.Verify);
  }

  /** With this server a non-match is an HTTP 404, so it reaches the verification
      screen's failure branch: the screen shows the server's text, publishes
      nothing to the store and arms only the local timer. */
  lemma NoMatchShownAsFailure(s: VerificationScreen.HomeState, uri: string, hs: seq<Hit>, env: Backend,
                              statusText: string)
    requires s.processing
    requires forall i :: 0 <= i < |hs| ==> hs[i].score < Threshold
    ensures var t := VerificationScreen.Step(s,
        VerificationScreen.Complete(VerificationScreen.PhotoTaken(uri), Transport(Judge(Some(hs), env), statusText)));
      t.result == Some(Store.UiResult(false, Null, Str(NoMatchText)))
      && t.store.recognitionResult == s.store.recognitionResult
      && t.timers == s.timers + [VerificationScreen.ClearResultOnly]
  {
    var a := Judge(Some(hs), env);
    assert a.status == 404 && "error" !in a.body && "message" in a.body && a.body["message"] == Str(NoMatchText) by {
      JudgeVerdict(hs, env);
    }
    RejectedAnswerShown(s, uri, a, statusText);
    assert Api.BackendDetail(Obj(a.body)) == Some(NoMatchText);
  }

  /** A rejected answer ends the capture in the screen's failure branch, showing
      the server's text, else the status line. */
  lemma RejectedAnswerShown(s: VerificationScreen.HomeState, uri: string, a: Answer, statusText: string)
    requires s.processing && !(200 <= a.status < 300)
    ensures var t := VerificationScreen.Step(s,
        VerificationScreen.Complete(VerificationScreen.PhotoTaken(uri), Transport(a, statusText)));
      t.result == Some(Store.UiResult(false, Null,
        Str(OrElse(Api.BackendDetail(Obj(a.body)), Api.StatusLine(Api.ErrorResponse(a.status, statusText, Obj(a.body)))))))
      && t.store.recognitionResult == s.store.recognitionResult
      && t.timers == s.timers + [VerificationScreen.ClearResultOnly]
  {
    var e := Transport(a, statusText).error;
    RejectedAnswerText(a, statusText, s.store.serverUrl);
    VerificationScreen.RejectionShowsClientMessage(s, uri, e);
  }

  /** The stored users all follow the older schema: no `profile`, no `user_id`. */
  predicate LegacyOnly(users: seq<Doc>) {
    forall i :: 0 <= i < |users| ==> "profile" !in users[i] && "user_id" !in users[i]
  }

  /** Against a database of older-schema users, the matched user of a 200 answer
      has an empty profile and no name. */
  lemma LegacyMatchAnonymous(env: Backend, room: Option<string>, score: Json -> real)
    requires LegacyOnly(env.users)
    requires Hits(Candidates(env.users, room), score).Some?
    requires Judge(Hits(Candidates(env.users, room), score), env).status == 200
    ensures var body := Judge(Hits(Candidates(env.users, room), score), env).body;
      "recognized" in body && "user" in body && body["recognized"] == Bool(true) && body["user"].Obj?
      && "profile" in body["user"].fields
      && body["user"].fields["profile"] == Obj(map[]) && "name" !in body["user"].fields
  {
    MatchedUserIsStored(env, room, score);
    var i :| 0 <= i < |env.users| && UserToResponse(Project(env.users[i]), env.now).Some?
      && Judge(Hits(Candidates(env.users, room), score), env).body["user"]
         == Obj(UserToResponse(Project(env.users[i]), env.now).value);
    LegacyUserLosesIdentity(env.users[i], env.now);
    ResponseHidesInternals(Project(env.users[i]), env.now);
  }

  /** A 200 answer naming a user without profile name or top-level name is greeted
      as `User`. */
  lemma AnonymousGreetedAsUser(body: Doc, statusText: string)
    requires "recognized" in body && body["recognized"] == Bool(true)
    requires "user" in body && body["user"].Obj?
    requires "profile" in body["user"].fields && body["user"].fields["profile"] == Obj(map[])
    requires "name" !in body["user"].fields
    ensures VerificationScreen.ResultOf(Obj(body)) == Store.UiResult(true, Str("User"), Str(VerificationScreen.GrantedText))
  {
    assert Field(Obj(body), "recognized") == Bool(true);
    assert Field(Field(Obj(body), "user"), "name") == Null;
  }

  /** Against a database of older-schema users, a recognised visitor is greeted as
      `User` whatever name is stored, because the candidate projection drops the
      top-level name. */
  lemma LegacyUsersGreetedAsUser(env: Backend, room: Option<string>, score: Json -> real, statusText: string)
    requires LegacyOnly(env.users)
    requires Hits(Candidates(env.users, room), score).Some?
    requires Judge(Hits(Candidates(env.users, room), score), env).status == 200
    ensures var h := Transport(Judge(Hits(Candidates(env.users, room), score), env), statusText);
      h.Answered? && VerificationScreen.ResultOf(h.data) == Store.UiResult(true, Str("User"), Str(VerificationScreen.GrantedText))
  {
    var a := Judge(Hits(Candidates(env.users, room), score), env);
    LegacyMatchAnonymous(env, room, score);
    JudgeAnswers(Hits(Candidates(env.users, room), score), env);
    AnonymousGreetedAsUser(a.body, statusText);
  }

  // ---------------------------------------------------------------------------
  // Forms on the way out

  /** The text fields of a received form; for a repeated key the first value is
      the one read. */
  function TextFields(form: seq<Api.FormEntry>): map<string, string>
    decreases |form|
  {
    if form == [] then map[]
    else
      var rest := TextFields(form[1..]);
      match form[0].value
      case TextPart(t) => rest[form[0].key := t]
      case FilePart(_, _, _) => rest
  }

  /** The file parts received under `key`, in order; file contents are not
      modelled. */
  function FilesOf(form: seq<Api.FormEntry>, key: string): (files: seq<Upload>)
    ensures |files| <= |form|
    decreases |form|
  {
    if form == [] then []
    else
      var rest := FilesOf(form[1..], key);
      match form[0].value
      case FilePart(_, _, name) => if form[0].key == key then [Upload(name, 0)] + rest else rest
      case TextPart(_) => rest
  }

  function FirstFile(form: seq<Api.FormEntry>, key: string): Option<Upload>
  {
    var files := FilesOf(form, key);
    if files == [] then None else Some(files[0])
  }

  /** The text value a form carries for `key` is the first text entry with that key. */
  lemma {:induction false} TextFieldsFirst(form: seq<Api.FormEntry>, i: nat, key: string, text: string)
    requires i < |form| && form[i] == Api.FormEntry(key, Api.TextPart(text))
    requires forall j :: 0 <= j < i ==> form[j].key != key
    ensures key in TextFields(form) && TextFields(form)[key] == text
    decreases i
  {
    if i > 0 {
      TextFieldsFirst(form[1..], i - 1, key, text);
    }
  }

  /** The recognition request as the server receives it. */
  function RecognizeRequestOf(form: seq<Api.FormEntry>): RecognizeRequest
  {
    RecognizeRequest(FirstFile(form, "image"), TextFields(form))
  }

  /** The registration request as the server receives it. */
  function RegisterRequestOf(form: seq<Api.FormEntry>): RegisterRequest
  {
    RegisterRequest(TextFields(form), FilesOf(form, "images"), FirstFile(form, "image"))
  }

  /** The client's recognition form always passes the server's image-presence
      check. */
  lemma VerifyFormHasImage(img: Api.ImageRef, env: Backend)
    ensures HasImage(RecognizeRequestOf(Api.VerifyForm(img)))
    ensures Recognize(RecognizeRequestOf(Api.VerifyForm(img)), env) != Answer(400, ErrorBody("No image provided"))
  {
    var form := Api.VerifyForm(img);
    var req := RecognizeRequestOf(form);
    if Api.IsDataUrl(img) {
      TextFieldsFirst(form, 0, "image_base64", img.s);
      assert FormValue(req.form, "image_base64") == Some(img.s);
    } else {
      assert FilesOf(form, "image") == [Upload("face.jpg", 0)];
    }
    NoImageIff(req, env);
  }

  /** The image parts of a registration form arrive as one named file per URI, in
      order, so the server saves every one of them, each under its own position. */
  lemma RegisteredImagesAllSaved(uris: seq<string>, p: Api.ProfileArg, sid: string, ts: string)
    requires p.name.Some? && p.studentId.Some?
    ensures var files := FilesOf(Api.RegisterForm(uris, p), "images");
      |files| == |uris|
      && |ListPaths(sid, ts, files)| == |uris|
      && forall i :: 0 <= i < |uris| ==> ListPaths(sid, ts, files)[i] == UploadPath(sid, ts, i + 1)
  {
    var form := Api.RegisterForm(uris, p);
    Api.RegisterFormLayout(uris, p);
    ImageFilesOf(form, |uris|);
    var files := FilesOf(form, "images");
    forall i | 0 <= i < |files|
      ensures files[i].filename != ""
    {
      assert files[i].filename == "face_" + Decimal(i + 1) + ".jpg";
    }
    ListPathsAllNamed(sid, ts, files);
  }

  /** Files of a form whose first `n` entries are the image parts and whose later
      entries carry other keys. */
  lemma {:induction false} ImageFilesOf(form: seq<Api.FormEntry>, n: nat)
    requires n <= |form|
    requires forall i :: 0 <= i < n ==> form[i].key == "images" && form[i].value.FilePart?
    requires forall i :: n <= i < |form| ==> form[i].key != "images"
    ensures |FilesOf(form, "images")| == n
    ensures forall i :: 0 <= i < n ==> FilesOf(form, "images")[i] == Upload(form[i].value.filename, 0)
    decreases |form|
  {
    if form != [] {
      ImageFilesOf(form[1..], if n > 0 then n - 1 else 0);
    }
  }

  /** The client trims with JavaScript's whitespace set and the server strips with
      Python's, which also holds the information separators U+001C to U+001F: a
      name made of one of them passes every client-side check and is refused by
      the server as missing. */
  lemma SeparatorNamePassesClientOnly(s: EnrollmentScreen.Session)
    requires |s.images| > 0 && s.name == "\U{001C}" && JsTrim(s.studentId) != ""
    ensures EnrollmentScreen.SubmitCheck(s).None?
    ensures var p := EnrollmentScreen.ProfileOf(s);
      Problem(RegisterRequestOf(Api.RegisterForm(s.images, p))) == Some(MissingName)
  {
    assert TrimStart(s.name, JsSpaces) == s.name;
    assert TrimEnd(s.name, JsSpaces) == s.name;
    assert JsTrim(s.name) == s.name;
    var p := EnrollmentScreen.ProfileOf(s);
    var form := Api.RegisterForm(s.images, p);
    Api.RegisterFormLayout(s.images, p);
    TextFieldsFirst(form, |s.images|, "name", s.name);
    assert TrimStart(s.name, PySpaces) == [];
    assert PyStrip(s.name) == [];
  }
}
