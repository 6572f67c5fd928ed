/** The server's registration route up to the point where the user document is
    assembled: validation of the stripped text fields, the choice of image source,
    the upload file names, data-URL stripping for base64 payloads and the face
    check over the saved files. Saving, decoding and face detection are
    parameters. */
module ServerRegister {
  import opened Values

  const UploadFolder: string := "uploads"

  /** An uploaded file part. An absent part or one without a file name reads as
      an empty file name. */
  datatype Upload = Upload(filename: string, content: nat)

  /** The multipart request: the text fields, the `images` list and the `image` file. */
  datatype RegisterRequest = RegisterRequest(form: map<string, string>, images: seq<Upload>, image: Option<Upload>)

  /** `request.form.get(key, "")`. */
  function FormText(form: map<string, string>, key: string): string
  {
    if key in form then form[key] else ""
  }

  /** `request.form.get(key)`. */
  function FormValue(form: map<string, string>, key: string): Option<string>
  {
    if key in form then Some(form[key]) else None
  }

  /** A file part that is present and named. */
  predicate Named(u: Option<Upload>) {
    u.Some? && u.value.filename != ""
  }

  /** The reasons the route answers 400. */
  datatype Refusal = MissingName | MissingStudentId | MissingImage | BadBase64(detail: string) | NoFace

  function RefusalText(r: Refusal): string
  {
    match r
    case MissingName => "Missing required field: name"
    case MissingStudentId => "Missing required field: student_id"
    case MissingImage => "Missing required field: image file"
    case BadBase64(detail) => "Invalid image_base64 data: " + detail
    case NoFace => "No face detected in the provided images. Please upload clear face images."
  }

  /** The validation of the route, in its order: the stripped name, the stripped
      student id, then the presence of some image source. */
  function Problem(req: RegisterRequest): (p: Option<Refusal>)
    ensures p == Some(MissingName) <==> PyStrip(FormText(req.form, "name")) == ""
    ensures p == Some(MissingStudentId) <==>
      PyStrip(FormText(req.form, "name")) != "" && PyStrip(FormText(req.form, "student_id")) == ""
    ensures p == Some(MissingImage) <==>
      PyStrip(FormText(req.form, "name")) != "" && PyStrip(FormText(req.form, "student_id")) != ""
      && |req.images| == 0 && !Named(req.image) && OrElse(FormValue(req.form, "image_base64"), "") == ""
    ensures p.None? || p == Some(MissingName) || p == Some(MissingStudentId) || p == Some(MissingImage)
  {
    if PyStrip(FormText(req.form, "name")) == "" then Some(MissingName)
    else if PyStrip(FormText(req.form, "student_id")) == "" then Some(MissingStudentId)
    else if |req.images| == 0 && !Named(req.image) && OrElse(FormValue(req.form, "image_base64"), "") == "" then
      Some(MissingImage)
    else None
  }

  /** Where the images are taken from: the list when it is non-empty, else the
      single named file, else the base64 field. */
  datatype Source = FileList | SingleFile | Base64Text

  function SourceOf(req: RegisterRequest): Source
  {
    if |req.images| > 0 then FileList else if Named(req.image) then SingleFile else Base64Text
  }

  // ---------------------------------------------------------------------------
  // Paths

  /** `os.path.join(folder, name)` for a folder without a trailing slash: a name
      that starts with `/` replaces the folder. */
  function Join(folder: string, name: string): (p: string)
    ensures StartsWith(name, "/") ==> p == name
    ensures !StartsWith(name, "/") ==> p == folder + "/" + name
  {
    if StartsWith(name, "/") then name else folder + "/" + name
  }

  /** Joining under the upload folder loses no information. */
  lemma JoinInjective(x: string, y: string)
    ensures Join(UploadFolder, x) == Join(UploadFolder, y) ==> x == y
  {
    var px := Join(UploadFolder, x);
    var py := Join(UploadFolder, y);
    assert px[0] == (if StartsWith(x, "/") then '/' else 'u');
    assert py[0] == (if StartsWith(y, "/") then '/' else 'u');
    assert !StartsWith(x, "/") ==> x == px[|UploadFolder| + 1..];
    assert !StartsWith(y, "/") ==> y == py[|UploadFolder| + 1..];
  }

  /** A student id that starts with `/` puts the saved file outside the upload
      folder. */
  lemma AbsoluteStudentIdEscapesFolder(sid: string, ts: string, n: nat)
    requires StartsWith(sid, "/")
    ensures !StartsWith(UploadPath(sid, ts, n), UploadFolder + "/")
  {
    var name := sid + "_" + ts + "_" + Decimal(n) + ".jpg";
    assert name[0] == '/';
    assert UploadPath(sid, ts, n) == name;
  }

  /** The path of the list entry with 1-based position `n`. */
  function UploadPath(sid: string, ts: string, n: nat): string
  {
    Join(UploadFolder, sid + "_" + ts + "_" + Decimal(n) + ".jpg")
  }

  /** The path of a single file or a base64 payload. */
  function SinglePath(sid: string, ts: string): string
  {
    Join(UploadFolder, sid + "_" + ts + ".jpg")
  }

  /** Different positions give different paths. */
  lemma {:induction false} UploadPathInjective(sid: string, ts: string, m: nat, n: nat)
    ensures UploadPath(sid, ts, m) == UploadPath(sid, ts, n) ==> m == n
  {
    var head := sid + "_" + ts + "_";
    var x := head + Decimal(m) + ".jpg";
    var y := head + Decimal(n) + ".jpg";
    JoinInjective(x, y);
    if x == y {
      assert |Decimal(m)| == |Decimal(n)|;
      assert Decimal(m) == x[|head|..|head| + |Decimal(m)|];
      assert Decimal(n) == y[|head|..|head| + |Decimal(n)|];
      DecimalInjective(m, n);
    }
  }

  /** The paths the list branch saves, in list order: entries without a file name
      are skipped, and every saved file keeps its original 1-based position. */
  function ListPaths(sid: string, ts: string, images: seq<Upload>): seq<string>
    decreases |images|
  {
    if images == [] then []
    else
      var named := images[|images| - 1].filename != "";
      ListPaths(sid, ts, images[..|images| - 1]) + (if named then [UploadPath(sid, ts, |images|)] else [])
  }

  /** Entry `i` of the list is named and saved under path `p`. */
  predicate SavedFrom(sid: string, ts: string, images: seq<Upload>, i: int, p: string) {
    0 <= i < |images| && images[i].filename != "" && p == UploadPath(sid, ts, i + 1)
  }

  /** Every saved path belongs to a named entry at the position it carries, and
      every named entry is saved. */
  lemma {:induction false} ListPathsExact(sid: string, ts: string, images: seq<Upload>)
    ensures forall p :: p in ListPaths(sid, ts, images) <==> exists i :: SavedFrom(sid, ts, images, i, p)
    decreases |images|
  {
    if images != [] {
      var init := images[..|images| - 1];
      var last := if images[|images| - 1].filename != "" then [UploadPath(sid, ts, |images|)] else [];
      ListPathsExact(sid, ts, init);
      assert ListPaths(sid, ts, images) == ListPaths(sid, ts, init) + last;
      forall p | p in ListPaths(sid, ts, images)
        ensures exists i :: SavedFrom(sid, ts, images, i, p)
      {
        if p in ListPaths(sid, ts, init) {
          var i :| SavedFrom(sid, ts, init, i, p);
          assert SavedFrom(sid, ts, images, i, p);
        } else {
          assert p in last;
          assert SavedFrom(sid, ts, images, |images| - 1, p);
        }
      }
      forall p | exists i :: SavedFrom(sid, ts, images, i, p)
        ensures p in ListPaths(sid, ts, images)
      {
        var i :| SavedFrom(sid, ts, images, i, p);
        if i < |init| {
          assert SavedFrom(sid, ts, init, i, p);
          assert p in ListPaths(sid, ts, init);
        } else {
          assert i + 1 == |images| && images[|images| - 1].filename != "";
          assert last == [UploadPath(sid, ts, |images|)];
        }
      }
    }
  }

  /** Every saved path carries a position no later than the list's length. */
  lemma {:induction false} ListPathsBounded(sid: string, ts: string, images: seq<Upload>)
    ensures forall p :: p in ListPaths(sid, ts, images) ==>
      exists n :: 1 <= n <= |images| && p == UploadPath(sid, ts, n)
    decreases |images|
  {
    if images != [] {
      ListPathsBounded(sid, ts, images[..|images| - 1]);
    }
  }

  /** A list whose entries are all named saves one file per entry, each under
      its own position. */
  lemma {:induction false} ListPathsAllNamed(sid: string, ts: string, images: seq<Upload>)
    requires forall i :: 0 <= i < |images| ==> images[i].filename != ""
    ensures |ListPaths(sid, ts, images)| == |images|
    ensures forall i :: 0 <= i < |images| ==> ListPaths(sid, ts, images)[i] == UploadPath(sid, ts, i + 1)
    decreases |images|
  {
    if images != [] {
      var init := images[..|images| - 1];
      ListPathsAllNamed(sid, ts, init);
      assert ListPaths(sid, ts, images) == ListPaths(sid, ts, init) + [UploadPath(sid, ts, |images|)];
    }
  }

  /** No entry of `s` occurs twice. */
  predicate Distinct(s: seq<string>) {
    forall i, j :: 0 <= i < j < |s| ==> s[i] != s[j]
  }

  /** No two saved files share a path, so no upload overwrites another. */
  lemma {:induction false} ListPathsDistinct(sid: string, ts: string, images: seq<Upload>)
    ensures Distinct(ListPaths(sid, ts, images))
    decreases |images|
  {
    if images != [] {
      var init := images[..|images| - 1];
      var prev := ListPaths(sid, ts, init);
      ListPathsDistinct(sid, ts, init);
      ListPathsBounded(sid, ts, init);
      if images[|images| - 1].filename != "" {
        var last := UploadPath(sid, ts, |images|);
        forall p | p in prev
          ensures p != last
        {
          var n :| 1 <= n <= |init| && p == UploadPath(sid, ts, n);
          UploadPathInjective(sid, ts, n, |images|);
        }
        var ps := prev + [last];
        assert ListPaths(sid, ts, images) == ps;
        forall i, j | 0 <= i < j < |ps|
          ensures ps[i] != ps[j]
        {
          assert ps[i] == prev[i] && prev[i] in prev;
          if j < |prev| {
            assert ps[j] == prev[j];
          }
        }
      } else {
        assert ListPaths(sid, ts, images) == prev;
      }
    }
  }

  // ---------------------------------------------------------------------------
  // Data URLs

  /** The index of the first `c` in `s`, or `|s|` when there is none. */
  function FirstIndex(s: string, c: char): (k: nat)
    ensures k <= |s|
    ensures k < |s| ==> s[k] == c
    ensures forall i :: 0 <= i < k ==> s[i] != c
  {
    if s == [] then 0 else if s[0] == c then 0 else 1 + FirstIndex(s[1..], c)
  }

  /** `b64.split(",", 1)[1]` when `b64` holds a comma, else `b64`: the payload of a
      `data:` URL (section 3 of RFC 2397) is what follows the first comma. */
  function StripDataPrefix(b64: string): (r: string)
    ensures ',' !in b64 ==> r == b64
    ensures ',' in b64 ==> |r| < |b64| && b64 == b64[..|b64| - |r| - 1] + [','] + r
    ensures ',' in b64 ==> ',' !in b64[..|b64| - |r| - 1]
  {
    if ',' in b64 then
      var k := FirstIndex(b64, ',');
      assert b64 == b64[..k] + [','] + b64[k + 1..];
      b64[k + 1..]
    else b64
  }

  /** A `data:` URL whose header holds no comma yields exactly its payload. */
  lemma DataUrlPayload(header: string, payload: string)
    requires ',' !in header
    ensures StripDataPrefix(header + [','] + payload) == payload
  {
    var s := header + [','] + payload;
    var k := FirstIndex(s, ',');
    assert s[|header|] == ',';
    assert forall i :: 0 <= i < |header| ==> s[i] == header[i];
    assert k == |header|;
    assert s[k + 1..] == payload;
  }

  // ---------------------------------------------------------------------------
  // Saving and checking the images

  /** What reading a saved file and looking for a face in it gave. */
  datatype Detection = Unreadable | Faceless | FaceFound(face: Json)

  /** The saved paths in which a face was found, with that face, in saving order. */
  function WithFaces(paths: seq<string>, detect: string -> Detection): (r: seq<(string, Json)>)
    ensures |r| <= |paths|
    ensures forall e :: e in r ==> e.0 in paths && detect(e.0) == FaceFound(e.1)
    decreases |paths|
  {
    if paths == [] then []
    else
      var init := WithFaces(paths[..|paths| - 1], detect);
      var p := paths[|paths| - 1];
      match detect(p)
      case FaceFound(face) => init + [(p, face)]
      case _ => init
  }

  /** Whether detection finds a face in the file at a path. */
  function FoundIn(detect: string -> Detection): string -> bool
  {
    p => detect(p).FaceFound?
  }

  /** The faces found are, in saving order, one entry for each saved position
      whose image reads and holds a face, carrying that path and that face. */
  lemma {:induction false} WithFacesAt(paths: seq<string>, detect: string -> Detection)
    ensures var ix := Positions(paths, FoundIn(detect));
      |WithFaces(paths, detect)| == |ix|
      && forall j :: 0 <= j < |ix| ==>
           WithFaces(paths, detect)[j] == (paths[ix[j]], detect(paths[ix[j]]).face)
    decreases |paths|
  {
    if paths != [] {
      var init := paths[..|paths| - 1];
      WithFacesAt(init, detect);
      var ix0 := Positions(init, FoundIn(detect));
      assert forall j :: 0 <= j < |ix0| ==> init[ix0[j]] == paths[ix0[j]];
      assert FoundIn(detect)(paths[|paths| - 1]) == detect(paths[|paths| - 1]).FaceFound?;
    }
  }

  /** No saved file with a face is missed. */
  lemma WithFacesComplete(paths: seq<string>, detect: string -> Detection, i: nat)
    requires i < |paths| && detect(paths[i]).FaceFound?
    ensures (paths[i], detect(paths[i]).face) in WithFaces(paths, detect)
  {
    assert FoundIn(detect)(paths[i]);
    PositionsComplete(paths, FoundIn(detect), i);
    WithFacesAt(paths, detect);
    var ix := Positions(paths, FoundIn(detect));
    var j :| 0 <= j < |ix| && ix[j] == i;
    assert WithFaces(paths, detect)[j] == (paths[i], detect(paths[i]).face);
  }

  /** How the route ends in this model: a 400 refusal (with the files the cleanup
      tries to remove), or the point where the document would be assembled, with
      the saved files and the faces found. */
  datatype RegisterOutcome =
    | Refused(refusal: Refusal, removed: seq<string>)
    | ReachedAssembly(saved: seq<string>, faces: seq<(string, Json)>)

  /** The files the chosen source saves, or the decoding refusal. */
  function Saved(req: RegisterRequest, ts: string, decodeError: string -> Option<string>): (r: Result)
  {
    var sid := PyStrip(FormText(req.form, "student_id"));
    match SourceOf(req)
    case FileList => Paths(ListPaths(sid, ts, req.images))
    case SingleFile => Paths([SinglePath(sid, ts)])
    case Base64Text =>
      var b64 := StripDataPrefix(OrElse(FormValue(req.form, "image_base64"), ""));
      match decodeError(b64)
      case Some(e) => Refusal(BadBase64(e))
      case None => Paths([SinglePath(sid, ts)])
  }

  datatype Result = Paths(paths: seq<string>) | Refusal(refusal: Refusal)

  /** The whole route as far as it is modelled. */
  function Register(req: RegisterRequest, ts: string, decodeError: string -> Option<string>,
                    detect: string -> Detection): RegisterOutcome
  {
    match Problem(req)
    case Some(p) => Refused(p, [])
    case None =>
      match Saved(req, ts, decodeError)
      case Refusal(p) => Refused(p, [])
      case Paths(paths) =>
        var faces := WithFaces(paths, detect);
        if faces == [] then Refused(NoFace, paths) else ReachedAssembly(paths, faces)
  }

  /** With a non-empty `images` list, the single file and the base64 field are
      ignored altogether. */
  lemma ListTakesPrecedence(req: RegisterRequest, ts: string, decodeError: string -> Option<string>,
                            detect: string -> Detection, other: Option<Upload>, b64: string)
    requires |req.images| > 0
    ensures Register(req, ts, decodeError, detect)
         == Register(req.(image := other, form := req.form["image_base64" := b64]), ts, decodeError, detect)
  {
    var req2 := req.(image := other, form := req.form["image_base64" := b64]);
    assert FormText(req2.form, "name") == FormText(req.form, "name");
    assert FormText(req2.form, "student_id") == FormText(req.form, "student_id");
  }

  /** Every file the route saves, and every file its cleanup removes, has a path
      of its own. */
  lemma SavedPathsDistinct(req: RegisterRequest, ts: string, decodeError: string -> Option<string>,
                           detect: string -> Detection)
    ensures var out := Register(req, ts, decodeError, detect);
      (out.ReachedAssembly? ==> Distinct(out.saved)) && (out.Refused? ==> Distinct(out.removed))
  {
    ListPathsDistinct(PyStrip(FormText(req.form, "student_id")), ts, req.images);
  }

  /** The route saves something exactly when the checks pass and decoding (for a
      base64 payload) succeeds; a request whose list entries all lack a file name
      passes the checks, saves nothing and is refused for lack of a face. */
  lemma UnnamedListRefusedForNoFace(req: RegisterRequest, ts: string, decodeError: string -> Option<string>,
                                    detect: string -> Detection)
    requires Problem(req).None? && |req.images| > 0
    requires forall i :: 0 <= i < |req.images| ==> req.images[i].filename == ""
    ensures Register(req, ts, decodeError, detect) == Refused(NoFace, [])
  {
    ListPathsUnnamed(PyStrip(FormText(req.form, "student_id")), ts, req.images);
  }

  /** A list without a single named entry saves nothing. */
  lemma {:induction false} ListPathsUnnamed(sid: string, ts: string, images: seq<Upload>)
    requires forall i :: 0 <= i < |images| ==> images[i].filename == ""
    ensures ListPaths(sid, ts, images) == []
    decreases |images|
  {
    if images != [] {
      ListPathsUnnamed(sid, ts, images[..|images| - 1]);
    }
  }

  /** The saving step: the list's named entries, else the single file, else the
      decoded base64 payload, whose decoding may refuse the request. */
  method SaveUploads(req: RegisterRequest, ts: string, decodeError: string -> Option<string>) returns (r: Result)
    ensures r == Saved(req, ts, decodeError)
  {
    var sid := PyStrip(FormText(req.form, "student_id"));
    if |req.images| > 0 {
      var saved: seq<string> := [];
      var idx := 0;
      while idx < |req.images|
        invariant 0 <= idx <= |req.images|
        invariant saved == ListPaths(sid, ts, req.images[..idx])
      {
        assert req.images[..idx + 1][..idx] == req.images[..idx];
        if req.images[idx].filename != "" {
          saved := saved + [UploadPath(sid, ts, idx + 1)];
        }
        idx := idx + 1;
      }
      assert req.images[..idx] == req.images;
      return Paths(saved);
    } else if Named(req.image) {
      return Paths([SinglePath(sid, ts)]);
    } else {
      var b64 := OrElse(FormValue(req.form, "image_base64"), "");
      b64 := StripDataPrefix(b64);
      var failure := decodeError(b64);
      if failure.Some? {
        return Refusal(BadBase64(failure.value));
      }
      return Paths([SinglePath(sid, ts)]);
    }
  }

  /** The detection loop: the saved files in which a face is found, with that face. */
  method DetectFaces(saved: seq<string>, detect: string -> Detection) returns (faces: seq<(string, Json)>)
    ensures faces == WithFaces(saved, detect)
  {
    faces := [];
    var k := 0;
    while k < |saved|
      invariant 0 <= k <= |saved|
      invariant faces == WithFaces(saved[..k], detect)
    {
      assert saved[..k + 1][..k] == saved[..k];
      var found := detect(saved[k]);
      if found.FaceFound? {
        faces := faces + [(saved[k], found.face)];
      }
      k := k + 1;
    }
    assert saved[..k] == saved;
  }

  /** `register_user` up to document assembly, written as the route's steps. */
  method RegisterUser(req: RegisterRequest, ts: string, decodeError: string -> Option<string>,
                      detect: string -> Detection) returns (out: RegisterOutcome)
    ensures out == Register(req, ts, decodeError, detect)
    ensures out.Refused? && out.refusal == NoFace ==> out.removed == Saved(req, ts, decodeError).paths
    ensures out.ReachedAssembly? ==> |out.faces| > 0 && |out.faces| <= |out.saved|
  {
    var problem := Problem(req);
    if problem.Some? {
      return Refused(problem.value, []);
    }
    var saved := SaveUploads(req, ts, decodeError);
    if saved.Refusal? {
      return Refused(saved.refusal, []);
    }
    var faces := DetectFaces(saved.paths, detect);
    if faces == [] {
      return Refused(NoFace, saved.paths);
    }
    return ReachedAssembly(saved.paths, faces);
  }
}
