/** The recognition client: the three requests the app sends to the recognition
    service, the form each one carries, and how every rejected request is turned
    into the single message the screens show. HTTP itself is abstract: a request
    is described by a `Request` value, and what came back is passed in as an
    `HttpOutcome`. */
module Api {
  import opened Values

  const RecognizeTimeoutMs: nat := 10000
  const RegisterTimeoutMs: nat := 15000
  const PingTimeoutMs: nat := 5000

  /** What `verifyFace` is given: a string (a file URI or a `data:` URL), or some
      other value that is only forwarded. */
  datatype ImageRef = Uri(s: string) | Opaque(handle: nat)

  datatype FormValue =
    | TextPart(text: string)
    | FilePart(uri: ImageRef, mime: string, filename: string)

  datatype FormEntry = FormEntry(key: string, value: FormValue)

  datatype HttpMethod = GET | POST

  datatype Request = Request(verb: HttpMethod, url: string, form: seq<FormEntry>, timeoutMs: nat)

  /** The `response` part of a rejected request. */
  datatype ErrorResponse = ErrorResponse(status: nat, statusText: string, data: Json)

  /** The fields of a rejected request that the client reads. */
  datatype HttpError = HttpError(code: Option<string>, message: Option<string>, response: Option<ErrorResponse>)

  /** What came back for a request: a 2xx body, or a rejection. */
  datatype HttpOutcome = Answered(data: Json) | Rejected(error: HttpError)

  /** What a client function does for its caller: resolve with the body, or throw. */
  datatype Reply = Resolved(data: Json) | Thrown(message: string)

  /** The request that was sent (None when the function threw before sending) and the reply. */
  datatype Exchange = Exchange(sent: Option<Request>, reply: Reply)

  datatype Operation = Verify | Register | Ping

  datatype FailureKind =
    | Timeout
    | Unreachable
    | ServerRejected(response: ErrorResponse)
    | Unknown(message: Option<string>)

  // ---------------------------------------------------------------------------
  // Error classification (the three `catch` blocks)

  predicate IsTimeout(e: HttpError) {
    e.code == Some("ECONNABORTED") || (e.message.Some? && Contains(e.message.value, "timeout"))
  }

  predicate IsNetworkError(e: HttpError) {
    e.code == Some("ERR_NETWORK") || (e.message.Some? && Contains(e.message.value, "Network Error"))
  }

  /** The four categories are tried in order and the first that matches wins. */
  function Classify(e: HttpError): (k: FailureKind)
    ensures IsTimeout(e) <==> k == Timeout
    ensures k == Unreachable <==> !IsTimeout(e) && IsNetworkError(e)
    ensures k.ServerRejected? <==> !IsTimeout(e) && !IsNetworkError(e) && e.response.Some?
    ensures k.ServerRejected? ==> k.response == e.response.value
    ensures k.Unknown? <==> !IsTimeout(e) && !IsNetworkError(e) && e.response.None?
    ensures k.Unknown? ==> k.message == e.message
  {
    if IsTimeout(e) then Timeout
    else if IsNetworkError(e) then Unreachable
    else if e.response.Some? then ServerRejected(e.response.value)
    else Unknown(e.message)
  }

  const TimeoutText: string := "Kết nối timeout. Vui lòng kiểm tra kết nối mạng."

  function UnreachableText(url: string, op: Operation): (r: string)
    ensures r != ""
  {
    "Không thể kết nối đến server.\nURL: " + url
      + "\n\nVui lòng kiểm tra:\n- Server có đang chạy không?\n- URL có đúng không?\n- Cùng WiFi/network không?"
      + (if op == Ping then "\n- Nếu test trên thiết bị, thay localhost bằng IP máy tính." else "")
  }

  function UnknownDefault(op: Operation): (r: string)
    ensures r != ""
  {
    match op
    case Verify => "Lỗi không xác định khi xác thực khuôn mặt."
    case Register => "Lỗi không xác định khi đăng ký khuôn mặt."
    case Ping => "Lỗi không xác định khi kiểm tra server."
  }

  /** `data?.error || data?.message`, for string values. */
  function BackendDetail(data: Json): Option<string>
  {
    if Text(Field(data, "error")).Some? then Text(Field(data, "error")) else Text(Field(data, "message"))
  }

  function StatusLine(r: ErrorResponse): (line: string)
    ensures |line| > |r.statusText|
  {
    "Server error: " + Decimal(r.status) + " - " + r.statusText
  }

  /** The message each client function throws for a rejected request. */
  function ErrorText(e: HttpError, url: string, op: Operation): (msg: string)
    ensures msg != ""
  {
    match Classify(e)
    case Timeout => TimeoutText
    case Unreachable => UnreachableText(url, op)
    case ServerRejected(r) =>
      if op == Ping then "Server error: " + Decimal(r.status) + " - " + OrElse(Text(Field(r.data, "message")), r.statusText)
      else OrElse(BackendDetail(r.data), StatusLine(r))
    case Unknown(m) => OrElse(m, UnknownDefault(op))
  }

  /** A timeout is reported with the fixed timeout text. */
  lemma TimeoutMessage(e: HttpError, url: string, op: Operation)
    requires IsTimeout(e)
    ensures ErrorText(e, url, op) == TimeoutText
  {
    assert Classify(e) == Timeout;
  }

  /** A network failure is reported with the text naming the server URL. */
  lemma UnreachableMessage(e: HttpError, url: string, op: Operation)
    requires !IsTimeout(e) && IsNetworkError(e)
    ensures ErrorText(e, url, op) == UnreachableText(url, op)
  {
    assert Classify(e) == Unreachable;
  }

  /** A server rejection is reported with the backend's `error`, then its
      `message`, then the status line; the connectivity check always shows the
      status and prefers the backend's `message` to the status text. */
  lemma RejectedMessage(e: HttpError, url: string, op: Operation)
    requires Classify(e).ServerRejected?
    ensures op != Ping ==>
      ErrorText(e, url, op) == OrElse(BackendDetail(e.response.value.data), StatusLine(e.response.value))
    ensures op == Ping ==>
      ErrorText(e, url, op) == "Server error: " + Decimal(e.response.value.status) + " - "
        + OrElse(Text(Field(e.response.value.data, "message")), e.response.value.statusText)
  {
    assert Classify(e) == ServerRejected(e.response.value);
  }

  /** Any other error is reported with its own message, else the operation's default. */
  lemma UnknownMessage(e: HttpError, url: string, op: Operation)
    requires Classify(e).Unknown?
    ensures ErrorText(e, url, op) == OrElse(e.message, UnknownDefault(op))
  {
    assert Classify(e) == Unknown(e.message);
  }

  /** The server status always appears in the connectivity-check message for a
      server rejection, right after its fixed prefix. */
  lemma PingServerTextHasStatus(e: HttpError, url: string)
    requires Classify(e).ServerRejected?
    ensures StartsWith(ErrorText(e, url, Ping), "Server error: " + Decimal(e.response.value.status) + " - ")
  {
    var r := e.response.value;
    var head := "Server error: " + Decimal(r.status) + " - ";
    var msg := ErrorText(e, url, Ping);
    RejectedMessage(e, url, Ping);
    assert msg == head + OrElse(Text(Field(r.data, "message")), r.statusText);
    assert msg[..|head|] == head;
  }

  /** An error thrown inside a client function with no code and no response, whose
      message mentions neither a timeout nor a network error, reaches the caller
      with its message unchanged. */
  lemma LocalErrorPassesThrough(m: string, url: string, op: Operation)
    requires m != ""
    requires !Contains(m, "timeout") && !Contains(m, "Network Error")
    ensures ErrorText(HttpError(None, Some(m), None), url, op) == m
  {
    var e := HttpError(None, Some(m), None);
    assert !IsTimeout(e) && !IsNetworkError(e);
    assert Classify(e) == Unknown(Some(m));
  }

  /** Neither validation message of `registerFace` looks like a timeout or a
      network failure, so each reaches the caller unchanged. */
  lemma ValidationTextsPassThrough(url: string)
    ensures ErrorText(HttpError(None, Some(NeedImagesText), None), url, Register) == NeedImagesText
    ensures ErrorText(HttpError(None, Some(NeedIdentityText), None), url, Register) == NeedIdentityText
  {
    ValidationTextPassesThrough(NeedImagesText, url);
    ValidationTextPassesThrough(NeedIdentityText, url);
  }

  lemma ValidationTextPassesThrough(m: string, url: string)
    requires m == NeedImagesText || m == NeedIdentityText
    ensures ErrorText(HttpError(None, Some(m), None), url, Register) == m
  {
    NotTimeoutOrNetwork(m);
    assert m != "" by {
      assert |NeedImagesText| > 0 && |NeedIdentityText| > 0;
    }
    LocalErrorPassesThrough(m, url, Register);
  }

  lemma NotTimeoutOrNetwork(m: string)
    requires m == NeedImagesText || m == NeedIdentityText
    ensures !Contains(m, "timeout") && !Contains(m, "Network Error")
  {
    NoNetworkError(m);
    if m == NeedIdentityText {
      NoTimeoutInIdentityText(m);
    } else {
      NoTimeoutInImagesText();
    }
  }

  lemma NoNetworkError(m: string)
    requires m == NeedImagesText || m == NeedIdentityText
    ensures !Contains(m, "Network Error")
  {
    if Contains(m, "Network Error") {
      ContainsChars(m, "Network Error", 'k');
      if m == NeedImagesText {
        NoLetterK(NeedImagesText);
      } else {
        NoLetterK(NeedIdentityText);
      }
    }
  }

  lemma NoLetterK(m: string)
    requires m == NeedImagesText || m == NeedIdentityText
    ensures 'k' !in m
  {
    forall i | 0 <= i < |m|
      ensures m[i] != 'k'
    {
    }
  }

  lemma NoTimeoutInIdentityText(m: string)
    requires m == NeedIdentityText
    ensures !Contains(m, "timeout")
  {
    if Contains(m, "timeout") {
      ContainsChars(m, "timeout", 'o');
      NoLetterO(m);
    }
  }

  lemma NoLetterO(m: string)
    requires m == NeedIdentityText
    ensures 'o' !in m
  {
    forall i | 0 <= i < |m|
      ensures m[i] != 'o'
    {
    }
  }

  lemma NoTimeoutInImagesText()
    ensures !Contains(NeedImagesText, "timeout")
  {
    if Contains(NeedImagesText, "timeout") {
      ContainsPrefix(NeedImagesText, "timeout", 2);
      assert "timeout"[..2] == "ti";
      NoTiInImagesText();
    }
  }

  lemma NoTiInImagesText()
    ensures !Contains(NeedImagesText, "ti")
  {
    var head, tail := "At least one ", "image URI is required";
    assert NeedImagesText == head + tail;
    if Contains(head + tail, "ti") {
      ContainsPairSplit(head, tail, "ti");
      NoPairIn(head, tail);
    }
  }

  lemma NoPairIn(head: string, tail: string)
    requires head == "At least one " && tail == "image URI is required"
    ensures !Contains(head, "ti") && !Contains(tail, "ti")
  {
    if Contains(head, "ti") {
      ContainsChars(head, "ti", 'i');
      assert false;
    }
    if Contains(tail, "ti") {
      ContainsChars(tail, "ti", 't');
      assert false;
    }
  }

  function ReplyOf(http: HttpOutcome, url: string, op: Operation): (r: Reply)
    ensures http.Answered? ==> r == Resolved(http.data)
    ensures http.Rejected? ==> r == Thrown(ErrorText(http.error, url, op)) && r.message != ""
  {
    match http
    case Answered(d) => Resolved(d)
    case Rejected(e) => Thrown(ErrorText(e, url, op))
  }

  // ---------------------------------------------------------------------------
  // verifyFace

  predicate IsDataUrl(img: ImageRef) {
    img.Uri? && StartsWith(img.s, "data:")
  }

  /** The recognition form: the `data:` URL itself as a text field, or the image
      as one JPEG file part. */
  function VerifyForm(img: ImageRef): (form: seq<FormEntry>)
    ensures |form| == 1
    ensures form[0].key == "image_base64" <==> IsDataUrl(img)
    ensures IsDataUrl(img) ==> form[0].value == TextPart(img.s)
    ensures !IsDataUrl(img) ==> form[0] == FormEntry("image", FilePart(img, "image/jpeg", "face.jpg"))
  {
    if img.Uri? && StartsWith(img.s, "data:") then [FormEntry("image_base64", TextPart(img.s))]
    else [FormEntry("image", FilePart(img, "image/jpeg", "face.jpg"))]
  }

  /** `verifyFace`: always sends one POST to `/recognize` with a 10 s timeout. */
  function VerifyFace(img: ImageRef, serverUrl: string, http: HttpOutcome): (ex: Exchange)
    ensures ex.sent == Some(Request(POST, serverUrl + "/recognize", VerifyForm(img), RecognizeTimeoutMs))
    ensures ex.reply == ReplyOf(http, serverUrl, Verify)
  {
    Exchange(Some(Request(POST, serverUrl + "/recognize", VerifyForm(img), RecognizeTimeoutMs)),
             ReplyOf(http, serverUrl, Verify))
  }

  // ---------------------------------------------------------------------------
  // registerFace

  /** What is passed as `images`: absent, not an array, or a list of file URIs. */
  datatype ImageList = Missing | NotAnArray | List(uris: seq<string>)

  /** The profile object; a missing property is None. */
  datatype ProfileArg = ProfileArg(
    name: Option<string>, studentId: Option<string>,
    department: Option<string>, userClass: Option<string>, room: Option<string>)

  const NeedImagesText: string := "At least one image URI is required"
  const NeedIdentityText: string := "Name and student_id are required"

  predicate Truthy(s: Option<string>) { s.Some? && s.value != "" }

  /** The client-side check of `registerFace`, images first. */
  function RegisterProblem(images: ImageList, profile: Option<ProfileArg>): (p: Option<string>)
    ensures p == Some(NeedImagesText) <==> !(images.List? && |images.uris| > 0)
    ensures p == Some(NeedIdentityText) <==>
      images.List? && |images.uris| > 0 && !(profile.Some? && Truthy(profile.value.name) && Truthy(profile.value.studentId))
    ensures p.None? <==>
      images.List? && |images.uris| > 0 && profile.Some? && Truthy(profile.value.name) && Truthy(profile.value.studentId)
  {
    if !images.List? || |images.uris| == 0 then Some(NeedImagesText)
    else if profile.None? || !Truthy(profile.value.name) || !Truthy(profile.value.studentId) then Some(NeedIdentityText)
    else None
  }

  function ImagePart(uri: string, idx: nat): FormEntry
  {
    FormEntry("images", FilePart(Uri(uri), "image/jpeg", "face_" + Decimal(idx + 1) + ".jpg"))
  }

  /** One `images` part per URI, in input order. */
  function ImageParts(uris: seq<string>): (parts: seq<FormEntry>)
    ensures |parts| == |uris|
    ensures forall i :: 0 <= i < |uris| ==> parts[i] == ImagePart(uris[i], i)
  {
    if uris == [] then [] else ImageParts(uris[..|uris| - 1]) + [ImagePart(uris[|uris| - 1], |uris| - 1)]
  }

  function OptionalPart(key: string, v: Option<string>): seq<FormEntry>
  {
    if Truthy(v) then [FormEntry(key, TextPart(v.value))] else []
  }

  function OptionalParts(p: ProfileArg): seq<FormEntry>
  {
    OptionalPart("department", p.department) + OptionalPart("class", p.userClass) + OptionalPart("room", p.room)
  }

  /** The registration form, in the order it is built. */
  function RegisterForm(uris: seq<string>, p: ProfileArg): seq<FormEntry>
    requires p.name.Some? && p.studentId.Some?
  {
    ImageParts(uris)
      + [FormEntry("name", TextPart(p.name.value)), FormEntry("student_id", TextPart(p.studentId.value))]
      + OptionalParts(p)
  }

  /** The form holds one `images` file per URI, in input order, named
      `face_<idx+1>.jpg`, followed by `name` and `student_id`, followed by each of
      `department`, `class` and `room` exactly when it is non-empty. */
  lemma RegisterFormLayout(uris: seq<string>, p: ProfileArg)
    requires p.name.Some? && p.studentId.Some?
    ensures var form := RegisterForm(uris, p);
      && |form| == |uris| + 2 + |OptionalParts(p)|
      && (forall i :: 0 <= i < |uris| ==>
            form[i].key == "images"
            && form[i].value == FilePart(Uri(uris[i]), "image/jpeg", "face_" + Decimal(i + 1) + ".jpg"))
      && form[|uris|] == FormEntry("name", TextPart(p.name.value))
      && form[|uris| + 1] == FormEntry("student_id", TextPart(p.studentId.value))
      && (forall i :: |uris| <= i < |form| ==> form[i].key != "images")
    ensures |OptionalParts(p)| == (if Truthy(p.department) then 1 else 0)
      + (if Truthy(p.userClass) then 1 else 0) + (if Truthy(p.room) then 1 else 0)
  {
  }

  /** No two image parts of one form share a file name: the parts at two
      different positions of `ImageParts` carry different names. */
  lemma ImagePartNamesDistinct(uris: seq<string>, i: nat, j: nat)
    requires i < |uris| && j < |uris| && i != j
    ensures ImagePart(uris[i], i).value.filename != ImagePart(uris[j], j).value.filename
  {
    NumberedNamesDiffer(i + 1, j + 1);
  }

  /** Different numbers give different file names. */
  lemma NumberedNamesDiffer(m: nat, n: nat)
    requires m != n
    ensures "face_" + Decimal(m) + ".jpg" != "face_" + Decimal(n) + ".jpg"
  {
    if "face_" + Decimal(m) + ".jpg" == "face_" + Decimal(n) + ".jpg" {
      NumberedNameDigits(Decimal(m));
      NumberedNameDigits(Decimal(n));
      DecimalInjective(m, n);
    }
  }

  /** The number can be read back out of a numbered file name. */
  lemma NumberedNameDigits(d: string)
    ensures var n := "face_" + d + ".jpg"; |n| == |d| + 9 && n[5..|n| - 4] == d
  {
    var n := "face_" + d + ".jpg";
    assert n[5..|n| - 4] == d;
  }

  /** The `forEach` that appends the image parts, then the fixed and optional fields. */
  method BuildRegisterForm(uris: seq<string>, p: ProfileArg) returns (form: seq<FormEntry>)
    requires p.name.Some? && p.studentId.Some?
    ensures form == RegisterForm(uris, p)
  {
    form := [];
    var idx := 0;
    while idx < |uris|
      invariant 0 <= idx <= |uris|
      invariant form == ImageParts(uris[..idx])
    {
      assert uris[..idx + 1][..idx] == uris[..idx];
      form := form + [ImagePart(uris[idx], idx)];
      idx := idx + 1;
    }
    assert uris[..idx] == uris;
    form := form + [FormEntry("name", TextPart(p.name.value))];
    form := form + [FormEntry("student_id", TextPart(p.studentId.value))];
    ghost var fixed := form;
    assert fixed == ImageParts(uris) + [FormEntry("name", TextPart(p.name.value)), FormEntry("student_id", TextPart(p.studentId.value))];
    ghost var extra: seq<FormEntry> := [];
    if Truthy(p.department) {
      form := form + [FormEntry("department", TextPart(p.department.value))];
      extra := extra + [FormEntry("department", TextPart(p.department.value))];
    }
    assert form == fixed + extra && extra == OptionalPart("department", p.department);
    if Truthy(p.userClass) {
      form := form + [FormEntry("class", TextPart(p.userClass.value))];
      extra := extra + [FormEntry("class", TextPart(p.userClass.value))];
    }
    assert form == fixed + extra && extra == OptionalPart("department", p.department) + OptionalPart("class", p.userClass);
    if Truthy(p.room) {
      form := form + [FormEntry("room", TextPart(p.room.value))];
      extra := extra + [FormEntry("room", TextPart(p.room.value))];
    }
    assert form == fixed + extra && extra == OptionalParts(p);
  }

  /** `registerFace`: an invalid argument is thrown before any request exists
      (its message passes through the same `catch` unchanged); otherwise one POST
      to `/register` with a 15 s timeout. */
  method RegisterFace(images: ImageList, profile: Option<ProfileArg>, serverUrl: string, http: HttpOutcome)
    returns (ex: Exchange)
    ensures RegisterProblem(images, profile).Some? ==>
      ex == Exchange(None, Thrown(RegisterProblem(images, profile).value))
    ensures RegisterProblem(images, profile).None? ==>
      ex == Exchange(Some(Request(POST, serverUrl + "/register", RegisterForm(images.uris, profile.value), RegisterTimeoutMs)),
                     ReplyOf(http, serverUrl, Register))
  {
    var problem := RegisterProblem(images, profile);
    if problem.Some? {
      // The validation error is thrown inside the `try` and caught by its own `catch`.
      var local := HttpError(None, Some(problem.value), None);
      ValidationTextsPassThrough(serverUrl);
      ex := Exchange(None, Thrown(ErrorText(local, serverUrl, Register)));
    } else {
      var form := BuildRegisterForm(images.uris, profile.value);
      ex := Exchange(Some(Request(POST, serverUrl + "/register", form, RegisterTimeoutMs)),
                     ReplyOf(http, serverUrl, Register));
    }
  }

  // ---------------------------------------------------------------------------
  // testServerConnection

  /** `testServerConnection`: one GET to `/ping` with a 5 s timeout. */
  function TestServerConnection(serverUrl: string, http: HttpOutcome): (ex: Exchange)
    ensures ex.sent == Some(Request(GET, serverUrl + "/ping", [], PingTimeoutMs))
    ensures ex.reply == ReplyOf(http, serverUrl, Ping)
  {
    Exchange(Some(Request(GET, serverUrl + "/ping", [], PingTimeoutMs)), ReplyOf(http, serverUrl, Ping))
  }
}
