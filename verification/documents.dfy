/** Stored user documents and their public form. A document is a JSON object;
    two schemas coexist: the current one with a `profile` sub-object and a
    `faces` list, and an older one with the profile fields at the top level. */
module ServerDocs {
  import opened Values

  type Doc = map<string, Json>

  /** Python `doc.get(key)`. */
  function Lookup(d: Doc, key: string): Json
  {
    Get(d, key, Null)
  }

  /** Python `a or b`. */
  function PyOr(a: Json, b: Json): (r: Json)
    ensures PyTruthy(a) ==> r == a
    ensures !PyTruthy(a) ==> r == b
  {
    if PyTruthy(a) then a else b
  }

  /** What reading `faces[0]["added_at"]` behind a truthiness test finds: a truthy
      value, nothing usable, or an exception because `faces` is not a list whose
      first entry is an object. */
  datatype FirstAdded = Added(value: Json) | NoneAdded | Broken

  /** `faces and faces[0].get("added_at")`, for the value `faces` read from a
      document. Only a truthy `faces` is indexed. */
  function FirstFaceAddedAt(faces: Json): (r: FirstAdded)
    ensures !PyTruthy(faces) ==> r == NoneAdded
    ensures r.Broken? <==> PyTruthy(faces) && !(faces.Arr? && faces.items[0].Obj?)
    ensures r.Added? ==> PyTruthy(r.value) && faces.Arr? && r.value == Lookup(faces.items[0].fields, "added_at")
    ensures PyTruthy(faces) && faces.Arr? && faces.items[0].Obj? ==>
      r == (if PyTruthy(Lookup(faces.items[0].fields, "added_at"))
            then Added(Lookup(faces.items[0].fields, "added_at")) else NoneAdded)
  {
    if !PyTruthy(faces) then NoneAdded
    else if !(faces.Arr? && faces.items[0].Obj?) then Broken
    else
      var added := Lookup(faces.items[0].fields, "added_at");
      if PyTruthy(added) then Added(added) else NoneAdded
  }

  /** `doc.get("faces", [])`. */
  function FacesOf(doc: Doc): Json
  {
    Get(doc, "faces", Arr([]))
  }

  /** The profile rebuilt from the older schema's top-level fields. */
  function LegacyProfile(doc: Doc): (p: Doc)
    ensures p.Keys == {"name", "student_id", "department", "class", "room"}
    ensures forall k :: k in p ==> p[k] == Lookup(doc, k)
  {
    map["name" := Lookup(doc, "name"), "student_id" := Lookup(doc, "student_id"),
        "department" := Lookup(doc, "department"), "class" := Lookup(doc, "class"),
        "room" := Lookup(doc, "room")]
  }

  /** The profile reported for a document: its `profile` when truthy, the legacy
      fields when it is not and the document has a top-level `name`, else the
      falsy value found (an empty object when the key is absent). */
  function ProfileOf(doc: Doc): (p: Json)
    ensures PyTruthy(Get(doc, "profile", Obj(map[]))) ==> p == doc["profile"]
    ensures !PyTruthy(Get(doc, "profile", Obj(map[]))) && "name" in doc ==> p == Obj(LegacyProfile(doc))
    ensures !PyTruthy(Get(doc, "profile", Obj(map[]))) && "name" !in doc ==> !PyTruthy(p)
  {
    var profile := Get(doc, "profile", Obj(map[]));
    if !PyTruthy(profile) && "name" in doc then Obj(LegacyProfile(doc)) else profile
  }

  /** `registered_at` as reported: the stored value when truthy, else the first
      face's `added_at`, else the current time; None where the lookup raises. */
  function RegisteredAt(doc: Doc, now: string): (r: Option<Json>)
    ensures PyTruthy(Lookup(doc, "registered_at")) ==> r == Some(doc["registered_at"])
    ensures !PyTruthy(Lookup(doc, "registered_at")) ==>
      match FirstFaceAddedAt(FacesOf(doc))
      case Added(v) => r == Some(v)
      case NoneAdded => r == Some(Str(now))
      case Broken => r.None?
  {
    var registered := Lookup(doc, "registered_at");
    if PyTruthy(registered) then Some(registered)
    else match FirstFaceAddedAt(FacesOf(doc))
      case Added(v) => Some(v)
      case NoneAdded => Some(Str(now))
      case Broken => None
  }

  /** What iterating `doc.get("faces", [])` visits; None where the iteration
      raises: iterating a non-empty object or string visits keys or characters
      that have no `get`, and other scalars cannot be iterated. */
  function FaceList(doc: Doc): (r: Option<seq<Json>>)
    ensures "faces" !in doc ==> r == Some([])
    ensures "faces" in doc && doc["faces"].Arr? ==> r == Some(doc["faces"].items)
  {
    match FacesOf(doc)
    case Arr(items) => Some(items)
    case Obj(m) => if m == map[] then Some([]) else None
    case Str(s) => if s == "" then Some([]) else None
    case _ => None
  }

  /** A route's answer: a status code and a JSON object body. */
  datatype Answer = Answer(status: nat, body: Doc)

  function ErrorBody(message: string): Doc
  {
    map["error" := Str(message)]
  }

  /** The keys of the public form of a user. */
  const ResponseKeys: set<string> := {"user_id", "profile", "registered_at", "updated_at", "embedding_version"}

  /** `user_to_response`: the public form of a stored user, or None where reading
      the first face raises. */
  function UserToResponse(doc: Doc, now: string): (r: Option<Doc>)
    ensures r.None? <==> RegisteredAt(doc, now).None?
    ensures r.Some? ==> r.value.Keys == ResponseKeys
    ensures r.Some? ==> r.value["user_id"] == PyOr(Lookup(doc, "user_id"), Lookup(doc, "uuid"))
    ensures r.Some? ==> r.value["profile"] == ProfileOf(doc)
    ensures r.Some? ==> r.value["registered_at"] == RegisteredAt(doc, now).value
    ensures r.Some? ==> r.value["updated_at"] == PyOr(Lookup(doc, "updated_at"), r.value["registered_at"])
    ensures r.Some? ==> r.value["embedding_version"] == Lookup(doc, "embedding_version")
  {
    match RegisteredAt(doc, now)
    case None => None
    case Some(registered) =>
      Some(map["user_id" := PyOr(Lookup(doc, "user_id"), Lookup(doc, "uuid")),
               "profile" := ProfileOf(doc),
               "registered_at" := registered,
               "updated_at" := PyOr(Lookup(doc, "updated_at"), registered),
               "embedding_version" := Lookup(doc, "embedding_version")])
  }

  /** With a non-empty clock reading, both reported timestamps are always truthy,
      and the update time never predates the registration time by being missing:
      it is the registration time whenever the document has none of its own. */
  lemma {:induction false} ResponseTimestampsPresent(doc: Doc, now: string)
    requires now != "" && UserToResponse(doc, now).Some?
    ensures var r := UserToResponse(doc, now).value;
      PyTruthy(r["registered_at"]) && PyTruthy(r["updated_at"])
      && (!PyTruthy(Lookup(doc, "updated_at")) ==> r["updated_at"] == r["registered_at"])
  {
    var r := UserToResponse(doc, now).value;
    assert PyTruthy(r["registered_at"]) by {
      if !PyTruthy(Lookup(doc, "registered_at")) {
        match FirstFaceAddedAt(FacesOf(doc))
        case Added(v) =>
        case NoneAdded => assert r["registered_at"] == Str(now);
        case Broken =>
      }
    }
  }

  /** No embedding, face list or legacy field leaks into the public form. */
  lemma ResponseHidesInternals(doc: Doc, now: string)
    requires UserToResponse(doc, now).Some?
    ensures var r := UserToResponse(doc, now).value;
      "faces" !in r && "face_encoding" !in r && "name" !in r && "uuid" !in r && "image_path" !in r
  {
  }
}
