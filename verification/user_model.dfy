/** The document builder of the user model: one flat record per registration. */
module UserModel {
  import opened Values
  import opened ServerDocs

  /** The keys copied from the registration data. */
  const CopiedKeys: set<string> := {"name", "student_id", "class", "department", "room", "registered_at", "updated_at"}

  /** `create_user_document`. The identifier generator is a parameter. */
  function CreateUserDocument(data: Doc, imagePath: Json, faceEncoding: Option<seq<real>>, newUuid: string): (doc: Doc)
  {
    var base := map[
      "uuid" := Str(newUuid),
      "name" := Lookup(data, "name"),
      "student_id" := Lookup(data, "student_id"),
      "class" := Lookup(data, "class"),
      "department" := Lookup(data, "department"),
      "room" := Lookup(data, "room"),
      "image_path" := imagePath,
      "registered_at" := Lookup(data, "registered_at"),
      "updated_at" := Lookup(data, "updated_at")];
    match faceEncoding
    case None => base
    case Some(e) => base["face_encoding" := EncodingJson(e)]
  }

  /** The encoding stored as a JSON list of numbers. */
  function EncodingJson(e: seq<real>): (j: Json)
    ensures j.Arr? && |j.items| == |e|
    ensures forall i :: 0 <= i < |e| ==> j.items[i] == Num(e[i])
  {
    Arr(seq(|e|, i requires 0 <= i < |e| => Num(e[i])))
  }

  /** The record holds exactly the fresh `uuid`, the seven copied fields, the
      image path and, exactly when an encoding is passed, `face_encoding`. */
  lemma CreatedDocumentKeys(data: Doc, imagePath: Json, faceEncoding: Option<seq<real>>, newUuid: string)
    ensures var doc := CreateUserDocument(data, imagePath, faceEncoding, newUuid);
      doc.Keys == CopiedKeys + {"uuid", "image_path"} + (if faceEncoding.Some? then {"face_encoding"} else {})
  {
    var base := CreateUserDocument(data, imagePath, None, newUuid);
    BaseDocumentKeys(data, imagePath, newUuid);
    match faceEncoding
    case None =>
    case Some(e) =>
      assert CreateUserDocument(data, imagePath, faceEncoding, newUuid) == base["face_encoding" := EncodingJson(e)];
  }

  /** In particular the record has no `faces` list, no `profile` and no `user_id`. */
  lemma CreatedDocumentFlat(data: Doc, imagePath: Json, faceEncoding: Option<seq<real>>, newUuid: string)
    ensures var doc := CreateUserDocument(data, imagePath, faceEncoding, newUuid);
      "faces" !in doc && "profile" !in doc && "user_id" !in doc
  {
    var doc := CreateUserDocument(data, imagePath, faceEncoding, newUuid);
    CreatedDocumentKeys(data, imagePath, faceEncoding, newUuid);
    FlatKeys(doc.Keys);
  }

  /** None of the record's possible keys is `faces`, `profile` or `user_id`. */
  lemma FlatKeys(keys: set<string>)
    requires keys <= CopiedKeys + {"uuid", "image_path", "face_encoding"}
    ensures "faces" !in keys && "profile" !in keys && "user_id" !in keys
  {
  }

  /** The record without an encoding has exactly the copied keys, `uuid` and the image path. */
  lemma BaseDocumentKeys(data: Doc, imagePath: Json, newUuid: string)
    ensures CreateUserDocument(data, imagePath, None, newUuid).Keys == CopiedKeys + {"uuid", "image_path"}
  {
  }

  /** The seven copied fields are the data's values (None where the data lacks
      them), the image path is stored as given, `uuid` is the generated identifier
      and the encoding is stored as a list of numbers. */
  lemma {:induction false} CreatedDocumentValues(data: Doc, imagePath: Json, faceEncoding: Option<seq<real>>, newUuid: string)
    ensures var doc := CreateUserDocument(data, imagePath, faceEncoding, newUuid);
      && "uuid" in doc && doc["uuid"] == Str(newUuid)
      && (forall k :: k in CopiedKeys ==> k in doc && doc[k] == Lookup(data, k))
      && "image_path" in doc && doc["image_path"] == imagePath
      && (faceEncoding.Some? ==> "face_encoding" in doc && doc["face_encoding"] == EncodingJson(faceEncoding.value))
  {
    var doc := CreateUserDocument(data, imagePath, faceEncoding, newUuid);
    var base := CreateUserDocument(data, imagePath, None, newUuid);
    BaseDocumentCopies(data, imagePath, newUuid);
    assert forall k :: k in base && k != "face_encoding" ==> k in doc && doc[k] == base[k];
  }

  /** The record without an encoding copies the seven fields one by one. */
  lemma BaseDocumentCopies(data: Doc, imagePath: Json, newUuid: string)
    ensures var base := CreateUserDocument(data, imagePath, None, newUuid);
      forall k :: k in CopiedKeys ==> k in base && base[k] == Lookup(data, k)
  {
    var base := CreateUserDocument(data, imagePath, None, newUuid);
    forall k | k in CopiedKeys
      ensures k in base && base[k] == Lookup(data, k)
    {
      if k == "name" || k == "student_id" || k == "class" {
        assert base[k] == Lookup(data, k);
      } else {
        assert base[k] == Lookup(data, k);
      }
    }
  }

  /** A document built here is read back through the older schema: its public
      form takes the profile from the top-level fields and the identifier from
      `uuid`, and keeps the registration data's timestamps when they are set. */
  lemma CreatedDocumentIsLegacy(data: Doc, imagePath: Json, faceEncoding: Option<seq<real>>, newUuid: string, now: string)
    requires newUuid != ""
    ensures var doc := CreateUserDocument(data, imagePath, faceEncoding, newUuid);
      var r := UserToResponse(doc, now);
      && r.Some?
      && r.value["user_id"] == Str(newUuid)
      && r.value["profile"] == Obj(LegacyProfile(doc))
      && (PyTruthy(Lookup(data, "registered_at")) ==> r.value["registered_at"] == data["registered_at"])
  {
    var doc := CreateUserDocument(data, imagePath, faceEncoding, newUuid);
    CreatedDocumentFlat(data, imagePath, faceEncoding, newUuid);
    CreatedDocumentValues(data, imagePath, faceEncoding, newUuid);
    FlatDocumentResponse(doc, newUuid, now);
  }

  /** Any flat record with a `uuid` and a `name` but no `user_id`, `profile` or
      `faces` is read through the older schema. */
  lemma FlatDocumentResponse(doc: Doc, newUuid: string, now: string)
    requires newUuid != "" && "uuid" in doc && doc["uuid"] == Str(newUuid) && "name" in doc
    requires "user_id" !in doc && "profile" !in doc && "faces" !in doc
    ensures var r := UserToResponse(doc, now);
      && r.Some?
      && r.value["user_id"] == Str(newUuid)
      && r.value["profile"] == Obj(LegacyProfile(doc))
      && (PyTruthy(Lookup(doc, "registered_at")) ==> r.value["registered_at"] == doc["registered_at"])
  {
    assert Lookup(doc, "user_id") == Null;
    assert Get(doc, "profile", Obj(map[])) == Obj(map[]);
    assert FacesOf(doc) == Arr([]);
  }
}
