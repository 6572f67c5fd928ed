/** The server's recognition route: input checks, the room filter and projection
    of the candidate users, the best-match scan over every stored face and the
    acceptance threshold. Similarity scores are abstract reals produced by a
    scoring function on stored embeddings; the clock, decoding, image reading,
    face detection and the database are parameters. */
module ServerRecognize {
  import opened Values
  import opened ServerDocs
  import opened ServerRegister

  /** The smallest similarity accepted as a match. */
  const Threshold: real := 0.70

  const NoMatchText: string := "Face detected but no matching user found (threshold not met)."

  /** The multipart request: the `image` file part and the text fields. */
  datatype RecognizeRequest = RecognizeRequest(image: Option<Upload>, form: map<string, string>)

  /** What the route's surroundings provide: the stored users in database order,
      the timestamp of the temporary file name, the clock reading used by the
      public form, base64 decoding, image reading with face detection, the
      similarity of the probe to a stored embedding, rounding to four places and
      the text of an exception raised while scanning. */
  datatype Backend = Backend(
    users: seq<Doc>,
    ts: string,
    now: string,
    decodeError: string -> Option<string>,
    detect: string -> Detection,
    similarity: (Json, Json) -> real,
    round4: real -> real,
    failure: string)

  /** Where the uploaded probe image is written before it is read back. */
  function TempPath(ts: string): string
  {
    Join(UploadFolder, "temp_" + ts + ".jpg")
  }

  // ---------------------------------------------------------------------------
  // Candidates

  /** The fields of `m` whose keys are in `keys`. */
  function Restrict(m: Doc, keys: set<string>): (r: Doc)
    ensures r.Keys == m.Keys * keys
    ensures forall k :: k in r ==> r[k] == m[k]
  {
    map k | k in m && k in keys :: m[k]
  }

  /** The top-level fields the candidate query asks for besides the faces. */
  const KeptKeys: set<string> := {"user_id", "profile", "registered_at", "updated_at", "embedding_version"}

  /** The face fields the candidate query asks for. */
  const FaceKeys: set<string> := {"embedding", "confidence"}

  /** The projection of a face list: objects keep only the face fields, other
      entries are dropped. */
  function ProjectFaces(items: seq<Json>): (r: seq<Json>)
    ensures |r| <= |items|
    ensures forall f :: f in r ==> f.Obj? && f.fields.Keys <= FaceKeys
    decreases |items|
  {
    if items == [] then []
    else
      var init := ProjectFaces(items[..|items| - 1]);
      match items[|items| - 1]
      case Obj(m) => init + [Obj(Restrict(m, FaceKeys))]
      case _ => init
  }

  predicate IsObject(j: Json) {
    j.Obj?
  }

  /** The projected list holds, in order, one entry for each object face: that
      face reduced to its embedding and confidence. */
  lemma {:induction false} ProjectFacesAt(items: seq<Json>)
    ensures var ix := Positions(items, IsObject);
      |ProjectFaces(items)| == |ix|
      && forall j :: 0 <= j < |ix| ==> ProjectFaces(items)[j] == Obj(Restrict(items[ix[j]].fields, FaceKeys))
    decreases |items|
  {
    if items != [] {
      var init := items[..|items| - 1];
      ProjectFacesAt(init);
      var ix0 := Positions(init, IsObject);
      assert forall j :: 0 <= j < |ix0| ==> init[ix0[j]] == items[ix0[j]];
    }
  }

  /** A face list holding an object keeps at least one entry. */
  lemma {:induction false} ProjectFacesKeepsObjects(items: seq<Json>)
    requires |items| > 0 && items[0].Obj?
    ensures |ProjectFaces(items)| > 0
    decreases |items|
  {
    if |items| > 1 {
      ProjectFacesKeepsObjects(items[..|items| - 1]);
    }
  }

  /** A stored user as the candidate query returns it: the kept top-level fields
      and the faces reduced to their embedding and confidence. */
  function Project(doc: Doc): Doc
  {
    var kept := Restrict(doc, KeptKeys);
    if "faces" in doc then
      match doc["faces"]
      case Arr(items) => kept["faces" := Arr(ProjectFaces(items))]
      case Obj(m) => kept["faces" := Obj(Restrict(m, FaceKeys))]
      case _ => kept
    else kept
  }

  /** The projection keeps the requested top-level fields unchanged, keeps a face
      list only when it is an array or an object, and adds nothing else. */
  lemma ProjectKeeps(doc: Doc)
    ensures forall k :: k in Project(doc) ==> k in KeptKeys || k == "faces"
    ensures forall k :: k in KeptKeys ==> (k in Project(doc) <==> k in doc)
    ensures forall k :: k in KeptKeys && k in Project(doc) ==> Project(doc)[k] == doc[k]
    ensures "faces" in Project(doc) <==> "faces" in doc && (doc["faces"].Arr? || doc["faces"].Obj?)
    ensures "faces" in doc && doc["faces"].Arr? ==> Project(doc)["faces"] == Arr(ProjectFaces(doc["faces"].items))
    ensures "faces" in doc && doc["faces"].Obj? ==> Project(doc)["faces"] == Obj(Restrict(doc["faces"].fields, FaceKeys))
  {
  }

  /** A non-empty `room` field restricts the search. */
  predicate Filters(room: Option<string>) {
    room.Some? && room.value != ""
  }

  /** The query `{"profile.room": room}`: the profile's room equals the value or is
      an array holding it. */
  predicate InRoom(doc: Doc, room: string) {
    var profile := Get(doc, "profile", Null);
    profile.Obj? && "room" in profile.fields
    && (profile.fields["room"] == Str(room)
        || (profile.fields["room"].Arr? && Str(room) in profile.fields["room"].items))
  }

  /** Whether the room filter lets the user through. */
  predicate Admitted(u: Doc, room: Option<string>) {
    !Filters(room) || InRoom(u, room.value)
  }

  /** The projected candidates, in database order. */
  function Candidates(users: seq<Doc>, room: Option<string>): (cs: seq<Doc>)
    ensures |cs| <= |users|
    decreases |users|
  {
    if users == [] then []
    else
      var init := Candidates(users[..|users| - 1], room);
      var u := users[|users| - 1];
      if Admitted(u, room) then init + [Project(u)] else init
  }

  /** Without a room every user is a candidate, in order. */
  lemma {:induction false} CandidatesUnfiltered(users: seq<Doc>, room: Option<string>)
    requires !Filters(room)
    ensures |Candidates(users, room)| == |users|
    ensures forall i :: 0 <= i < |users| ==> Candidates(users, room)[i] == Project(users[i])
    decreases |users|
  {
    if users != [] {
      var init := users[..|users| - 1];
      CandidatesUnfiltered(init, room);
      assert forall i :: 0 <= i < |init| ==> init[i] == users[i];
    }
  }

  /** The candidates are exactly the projections of the users the room filter
      admits. */
  lemma {:induction false} CandidatesExact(users: seq<Doc>, room: Option<string>)
    ensures forall c :: c in Candidates(users, room) <==>
      exists i :: 0 <= i < |users| && c == Project(users[i]) && Admitted(users[i], room)
    decreases |users|
  {
    if users != [] {
      var init := users[..|users| - 1];
      CandidatesExact(init, room);
      forall c
        ensures c in Candidates(users, room) <==>
          exists i :: 0 <= i < |users| && c == Project(users[i]) && Admitted(users[i], room)
      {
        if c in Candidates(init, room) {
          var i :| 0 <= i < |init| && c == Project(init[i]) && Admitted(init[i], room);
          assert users[i] == init[i];
        }
        if exists i :: 0 <= i < |users| && c == Project(users[i]) && Admitted(users[i], room) {
          var i :| 0 <= i < |users| && c == Project(users[i]) && Admitted(users[i], room);
          if i < |init| {
            assert init[i] == users[i];
          }
        }
      }
    }
  }

  /** Whether the room filter admits a user, as a test on one document. */
  function AdmittedBy(room: Option<string>): Doc -> bool
  {
    u => Admitted(u, room)
  }

  /** The candidates keep database order: candidate `j` is the projection of the
      `j`-th admitted user. */
  lemma {:induction false} CandidatesInOrder(users: seq<Doc>, room: Option<string>)
    ensures var ix := Positions(users, AdmittedBy(room));
      |Candidates(users, room)| == |ix|
      && forall j :: 0 <= j < |ix| ==> Candidates(users, room)[j] == Project(users[ix[j]])
    decreases |users|
  {
    if users != [] {
      var init := users[..|users| - 1];
      CandidatesInOrder(init, room);
      var ix0 := Positions(init, AdmittedBy(room));
      assert forall j :: 0 <= j < |ix0| ==> init[ix0[j]] == users[ix0[j]];
      assert AdmittedBy(room)(users[|users| - 1]) == Admitted(users[|users| - 1], room);
    }
  }

  /** Every candidate is the projection of a stored user. */
  lemma {:induction false} CandidateIsProjection(users: seq<Doc>, room: Option<string>, c: Doc)
    requires c in Candidates(users, room)
    ensures exists i :: 0 <= i < |users| && c == Project(users[i])
    decreases |users|
  {
    var init := users[..|users| - 1];
    if c in Candidates(init, room) {
      CandidateIsProjection(init, room, c);
      var i :| 0 <= i < |init| && c == Project(init[i]);
      assert users[i] == init[i];
    } else {
      assert c == Project(users[|users| - 1]);
    }
  }

  // ---------------------------------------------------------------------------
  // The scan

  /** A stored face with an embedding, the candidate it belongs to and its score. */
  datatype Hit = Hit(user: Doc, face: Doc, score: real)

  /** The scored faces among `items`, in order, skipping a missing or null
      embedding; None where an entry is not an object. */
  function FaceHits(cand: Doc, items: seq<Json>, score: Json -> real): Option<seq<Hit>>
    decreases |items|
  {
    if items == [] then Some([])
    else
      match FaceHits(cand, items[..|items| - 1], score)
      case None => None
      case Some(hs) =>
        var f := items[|items| - 1];
        if !f.Obj? then None
        else
          var emb := Get(f.fields, "embedding", Null);
          if emb == Null then Some(hs) else Some(hs + [Hit(cand, f.fields, score(emb))])
  }

  function CandidateHits(cand: Doc, score: Json -> real): Option<seq<Hit>>
  {
    match FaceList(cand)
    case None => None
    case Some(items) => FaceHits(cand, items, score)
  }

  /** Every scored face of every candidate, candidates first, faces second;
      None where the scan raises. */
  function Hits(cands: seq<Doc>, score: Json -> real): Option<seq<Hit>>
    decreases |cands|
  {
    if cands == [] then Some([])
    else
      match Hits(cands[..|cands| - 1], score)
      case None => None
      case Some(hs) =>
        match CandidateHits(cands[|cands| - 1], score)
        case None => None
        case Some(more) => Some(hs + more)
  }

  /** A scan that raises on some entry raises whatever follows. */
  lemma {:induction false} FaceHitsPrefixRaises(cand: Doc, items: seq<Json>, k: nat, score: Json -> real)
    requires k <= |items| && FaceHits(cand, items[..k], score).None?
    ensures FaceHits(cand, items, score).None?
    decreases |items|
  {
    if k == |items| {
      assert items[..k] == items;
    } else {
      var init := items[..|items| - 1];
      assert init[..k] == items[..k];
      FaceHitsPrefixRaises(cand, init, k, score);
    }
  }

  lemma {:induction false} HitsPrefixRaises(cands: seq<Doc>, k: nat, score: Json -> real)
    requires k <= |cands| && Hits(cands[..k], score).None?
    ensures Hits(cands, score).None?
    decreases |cands|
  {
    if k == |cands| {
      assert cands[..k] == cands;
    } else {
      var init := cands[..|cands| - 1];
      assert init[..k] == cands[..k];
      HitsPrefixRaises(init, k, score);
    }
  }

  /** The running best: the match kept so far and its similarity. */
  datatype Pick = Pick(best: Option<Hit>, sim: real)

  /** One step of the scan: a strictly higher score replaces the match. */
  function Consider(p: Pick, h: Hit): Pick
  {
    if h.score > p.sim then Pick(Some(h), h.score) else p
  }

  /** The scan over all hits, starting from no match at -1.0. */
  function Best(hs: seq<Hit>): Pick
    decreases |hs|
  {
    if hs == [] then Pick(None, -1.0) else Consider(Best(hs[..|hs| - 1]), hs[|hs| - 1])
  }

  /** `k` is the first position holding the highest score, and that score is
      above the starting value. */
  predicate IsEarliestMax(hs: seq<Hit>, k: int) {
    0 <= k < |hs| && hs[k].score > -1.0
    && (forall i :: 0 <= i < |hs| ==> hs[i].score <= hs[k].score)
    && (forall i :: 0 <= i < k ==> hs[i].score < hs[k].score)
  }

  /** The scan keeps the earliest face with the highest score; no match remains
      only when no score exceeds -1.0. */
  lemma {:induction false} BestIsEarliestMax(hs: seq<Hit>)
    ensures forall i :: 0 <= i < |hs| ==> hs[i].score <= Best(hs).sim
    ensures Best(hs).best.None? ==> Best(hs).sim == -1.0
    ensures Best(hs).best.Some? ==>
      exists k :: IsEarliestMax(hs, k) && Best(hs).best.value == hs[k] && Best(hs).sim == hs[k].score
    decreases |hs|
  {
    if hs != [] {
      var init := hs[..|hs| - 1];
      var h := hs[|hs| - 1];
      BestIsEarliestMax(init);
      var p := Best(init);
      assert forall i :: 0 <= i < |init| ==> hs[i] == init[i];
      if h.score > p.sim {
        assert p.sim >= -1.0 by {
          if p.best.Some? {
            var k :| IsEarliestMax(init, k) && p.sim == init[k].score;
          }
        }
        assert IsEarliestMax(hs, |hs| - 1);
      } else if p.best.Some? {
        var k :| IsEarliestMax(init, k) && p.best.value == init[k] && p.sim == init[k].score;
        assert IsEarliestMax(hs, k);
      }
    }
  }

  /** There is at most one earliest maximum. */
  lemma EarliestMaxUnique(hs: seq<Hit>, k1: int, k2: int)
    requires IsEarliestMax(hs, k1) && IsEarliestMax(hs, k2)
    ensures k1 == k2
  {
  }

  /** The scan finds no match exactly when every score is at most -1.0. */
  lemma NoMatchIffAllLow(hs: seq<Hit>)
    ensures Best(hs).best.None? <==> forall i :: 0 <= i < |hs| ==> hs[i].score <= -1.0
  {
    BestIsEarliestMax(hs);
  }

  /** A match meets the threshold exactly when some face scores at least 0.70. */
  lemma MeetsThresholdIff(hs: seq<Hit>)
    ensures Best(hs).best.Some? && Best(hs).sim >= Threshold
        <==> exists i :: 0 <= i < |hs| && hs[i].score >= Threshold
  {
    BestIsEarliestMax(hs);
    if exists i :: 0 <= i < |hs| && hs[i].score >= Threshold {
      var i :| 0 <= i < |hs| && hs[i].score >= Threshold;
      assert hs[i].score <= Best(hs).sim;
    }
  }

  /** The route's inner loop over one candidate's faces, continuing the scan
      from the best so far over the hits already `seen`; None where an entry is
      not an object. */
  method ScanFaces(cand: Doc, items: seq<Json>, score: Json -> real, start: Pick, ghost seen: seq<Hit>)
    returns (r: Option<Pick>)
    requires start == Best(seen)
    ensures FaceHits(cand, items, score).None? ==> r.None?
    ensures FaceHits(cand, items, score).Some? ==> r == Some(Best(seen + FaceHits(cand, items, score).value))
  {
    var bestMatch := start.best;
    var bestSim := start.sim;
    ghost var mine: seq<Hit> := [];
    assert seen + mine == seen;
    var fi := 0;
    while fi < |items|
      invariant 0 <= fi <= |items|
      invariant FaceHits(cand, items[..fi], score) == Some(mine)
      invariant Pick(bestMatch, bestSim) == Best(seen + mine)
    {
      assert items[..fi + 1][..fi] == items[..fi];
      var f := items[fi];
      if !f.Obj? {
        FaceHitsPrefixRaises(cand, items, fi + 1, score);
        return None;
      }
      var emb := Get(f.fields, "embedding", Null);
      if emb != Null {
        var h := Hit(cand, f.fields, score(emb));
        if h.score > bestSim {
          bestSim := h.score;
          bestMatch := Some(h);
        }
        assert (seen + mine) + [h] == seen + (mine + [h]);
        mine := mine + [h];
      }
      fi := fi + 1;
    }
    assert items[..fi] == items;
    return Some(Pick(bestMatch, bestSim));
  }

  /** The route's outer loop over the candidates, keeping the best match and its
      similarity; None where the scan raises. */
  method BestMatch(cands: seq<Doc>, score: Json -> real) returns (r: Option<Pick>)
    ensures Hits(cands, score).None? ==> r.None?
    ensures Hits(cands, score).Some? ==> r == Some(Best(Hits(cands, score).value))
  {
    var best := Pick(None, -1.0);
    ghost var seen: seq<Hit> := [];
    var ci := 0;
    while ci < |cands|
      invariant 0 <= ci <= |cands|
      invariant Hits(cands[..ci], score) == Some(seen)
      invariant best == Best(seen)
    {
      assert cands[..ci + 1][..ci] == cands[..ci];
      var cand := cands[ci];
      var faces := FaceList(cand);
      if faces.None? {
        HitsPrefixRaises(cands, ci + 1, score);
        return None;
      }
      var next := ScanFaces(cand, faces.value, score, best, seen);
      if next.None? {
        HitsPrefixRaises(cands, ci + 1, score);
        return None;
      }
      best := next.value;
      seen := seen + FaceHits(cand, faces.value, score).value;
      ci := ci + 1;
    }
    assert cands[..ci] == cands;
    return Some(best);
  }

  // ---------------------------------------------------------------------------
  // The route

  /** The score of a stored embedding against the probe. */
  function Scorer(similarity: (Json, Json) -> real, probe: Json): Json -> real
  {
    emb => similarity(probe, emb)
  }

  /** The answer once the scan has run: a match at or above the threshold is
      greeted with its public form, anything else is a 404 carrying the best
      score (0.0 when nothing matched). */
  function Judge(hits: Option<seq<Hit>>, env: Backend): (a: Answer)
  {
    match hits
    case None => Answer(500, ErrorBody("Error processing face: " + env.failure))
    case Some(hs) =>
      var p := Best(hs);
      if p.best.Some? && p.sim >= Threshold then
        match UserToResponse(p.best.value.user, env.now)
        case None => Answer(500, ErrorBody("Error processing face: " + env.failure))
        case Some(u) => Answer(200, map["recognized" := Bool(true), "confidence" := Num(env.round4(p.sim)), "user" := Obj(u)])
      else
        Answer(404, map["recognized" := Bool(false), "message" := Str(NoMatchText),
                        "confidence" := Num(if p.best.Some? then env.round4(p.sim) else 0.0)])
  }

  /** `recognize_face`. */
  function Recognize(req: RecognizeRequest, env: Backend): Answer
  {
    var b64 := OrElse(FormValue(req.form, "image_base64"), "");
    if !Named(req.image) && b64 == "" then Answer(400, ErrorBody("No image provided"))
    else if !Named(req.image) && env.decodeError(StripDataPrefix(b64)).Some? then
      Answer(400, ErrorBody("Invalid image_base64 data: " + env.decodeError(StripDataPrefix(b64)).value))
    else
      match env.detect(TempPath(env.ts))
      case Unreadable => Answer(400, ErrorBody("Could not read uploaded image"))
      case Faceless => Answer(400, map["error" := Str("No face detected in the image"), "detected" := Bool(false)])
      case FaceFound(face) =>
        var cands := Candidates(env.users, FormValue(req.form, "room"));
        Judge(Hits(cands, Scorer(env.similarity, Field(face, "embedding"))), env)
  }

  /** The request carries an image: a named file part or a non-empty base64 field. */
  predicate HasImage(req: RecognizeRequest) {
    Named(req.image) || OrElse(FormValue(req.form, "image_base64"), "") != ""
  }

  /** The route answers "No image provided" exactly when the request carries
      neither a named file nor a base64 text. */
  lemma NoImageIff(req: RecognizeRequest, env: Backend)
    ensures Recognize(req, env) == Answer(400, ErrorBody("No image provided")) <==> !HasImage(req)
  {
    if HasImage(req) {
      var b64 := OrElse(FormValue(req.form, "image_base64"), "");
      var none := ErrorBody("No image provided");
      assert |none["error"].s| == 17;
      if !Named(req.image) && env.decodeError(StripDataPrefix(b64)).Some? {
        assert |("Invalid image_base64 data: " + env.decodeError(StripDataPrefix(b64)).value)| >= 27;
      } else {
        match env.detect(TempPath(env.ts))
        case Unreadable =>
          assert |"Could not read uploaded image"| == 29;
        case Faceless =>
          assert "detected" in Recognize(req, env).body && "detected" !in none;
        case FaceFound(face) =>
          var cands := Candidates(env.users, FormValue(req.form, "room"));
          var hits := Hits(cands, Scorer(env.similarity, Field(face, "embedding")));
          JudgeAnswers(hits, env);
          assert |("Error processing face: " + env.failure)| >= 23;
      }
    }
  }

  /** Every hit belongs to one of the candidates scanned. */
  lemma {:induction false} HitsBelongToCandidates(cands: seq<Doc>, score: Json -> real)
    requires Hits(cands, score).Some?
    ensures forall h :: h in Hits(cands, score).value ==> h.user in cands
    decreases |cands|
  {
    if cands != [] {
      var init := cands[..|cands| - 1];
      var cand := cands[|cands| - 1];
      HitsBelongToCandidates(init, score);
      FaceHitsBelongTo(cand, FaceList(cand).value, score);
    }
  }

  lemma {:induction false} FaceHitsBelongTo(cand: Doc, items: seq<Json>, score: Json -> real)
    requires FaceHits(cand, items, score).Some?
    ensures forall h :: h in FaceHits(cand, items, score).value ==> h.user == cand
    decreases |items|
  {
    if items != [] {
      FaceHitsBelongTo(cand, items[..|items| - 1], score);
    }
  }

  /** The verdict after a scan: 200 exactly when some face scores at least 0.70
      and the matched user can be rendered, greeting the earliest best-scoring
      candidate; 404 exactly when every face scores below 0.70, reporting 0.0
      when no score exceeded -1.0. */
  lemma JudgeVerdict(hs: seq<Hit>, env: Backend)
    ensures Judge(Some(hs), env).status == 404 <==> forall i :: 0 <= i < |hs| ==> hs[i].score < Threshold
    ensures Judge(Some(hs), env).status == 200 ==>
      exists k :: (IsEarliestMax(hs, k)
        && hs[k].score >= Threshold
        && UserToResponse(hs[k].user, env.now).Some?
        && Judge(Some(hs), env).body["user"] == Obj(UserToResponse(hs[k].user, env.now).value)
        && Judge(Some(hs), env).body["confidence"] == Num(env.round4(hs[k].score)))
    ensures Judge(Some(hs), env).status in {200, 404, 500}
    ensures (forall i :: 0 <= i < |hs| ==> hs[i].score <= -1.0) ==> Judge(Some(hs), env).body["confidence"] == Num(0.0)
  {
    BestIsEarliestMax(hs);
    MeetsThresholdIff(hs);
    NoMatchIffAllLow(hs);
  }

  /** A 200 answer reports `recognized` and the public form of the scan's match. */
  lemma JudgeGreets(hs: seq<Hit>, env: Backend)
    requires Judge(Some(hs), env).status == 200
    ensures Best(hs).best.Some? && UserToResponse(Best(hs).best.value.user, env.now).Some?
    ensures "recognized" in Judge(Some(hs), env).body && "user" in Judge(Some(hs), env).body
    ensures Judge(Some(hs), env).body["recognized"] == Bool(true)
    ensures Judge(Some(hs), env).body["user"] == Obj(UserToResponse(Best(hs).best.value.user, env.now).value)
  {
  }

  /** A 200 answer reports `recognized` and the public form of the projection of
      some stored user. */
  lemma MatchedUserIsStored(env: Backend, room: Option<string>, score: Json -> real)
    requires Hits(Candidates(env.users, room), score).Some?
    requires Judge(Hits(Candidates(env.users, room), score), env).status == 200
    ensures var body := Judge(Hits(Candidates(env.users, room), score), env).body;
      "recognized" in body && "user" in body && body["recognized"] == Bool(true)
      && exists i :: (0 <= i < |env.users| && UserToResponse(Project(env.users[i]), env.now).Some?
        && body["user"] == Obj(UserToResponse(Project(env.users[i]), env.now).value))
  {
    var cands := Candidates(env.users, room);
    var hs := Hits(cands, score).value;
    JudgeGreets(hs, env);
    var h := Best(hs).best.value;
    assert h in hs by {
      BestIsEarliestMax(hs);
    }
    assert h.user in cands by {
      HitsBelongToCandidates(cands, score);
    }
    CandidateIsProjection(env.users, room, h.user);
    var i :| 0 <= i < |env.users| && h.user == Project(env.users[i]);
    var body := Judge(Hits(cands, score), env).body;
    assert body["user"] == Obj(UserToResponse(Project(env.users[i]), env.now).value);
  }

  /** A named file part wins: the base64 field is then never looked at. */
  lemma FileIgnoresBase64(req: RecognizeRequest, env: Backend, other: string)
    requires Named(req.image)
    ensures Recognize(req, env) == Recognize(req.(form := req.form["image_base64" := other]), env)
  {
    var form2 := req.form["image_base64" := other];
    assert FormValue(form2, "room") == FormValue(req.form, "room");
  }

  /** After detection the route answers 200 with a user and `recognized` true,
      404 with `recognized` false, or 500 with an error text. */
  lemma JudgeAnswers(hits: Option<seq<Hit>>, env: Backend)
    ensures Judge(hits, env).status in {200, 404, 500}
    ensures Judge(hits, env).status == 500 ==> "error" in Judge(hits, env).body
    ensures Judge(hits, env).status == 200 <==>
      "user" in Judge(hits, env).body && Judge(hits, env).body["recognized"] == Bool(true)
  {
  }

  /** Every 400 and 500 carries an error text, and the route answers 200 exactly
      when it reports a recognised user. */
  lemma RecognizeAnswers(req: RecognizeRequest, env: Backend)
    ensures Recognize(req, env).status in {200, 400, 404, 500}
    ensures Recognize(req, env).status in {400, 500} ==> "error" in Recognize(req, env).body
    ensures Recognize(req, env).status == 200 <==>
      "user" in Recognize(req, env).body && Recognize(req, env).body["recognized"] == Bool(true)
  {
    var b64 := OrElse(FormValue(req.form, "image_base64"), "");
    if Named(req.image) || b64 != "" {
      if Named(req.image) || env.decodeError(StripDataPrefix(b64)).None? {
        match env.detect(TempPath(env.ts))
        case Unreadable =>
        case Faceless =>
        case FaceFound(face) =>
          var cands := Candidates(env.users, FormValue(req.form, "room"));
          JudgeAnswers(Hits(cands, Scorer(env.similarity, Field(face, "embedding"))), env);
      }
    }
  }

  /** The projection drops the top-level fields of the older schema, so a
      recognised legacy user (no `profile`, no `user_id`) is reported with an empty
      profile and a null id, whatever name and uuid it stores. */
  lemma LegacyUserLosesIdentity(doc: Doc, now: string)
    requires "profile" !in doc && "user_id" !in doc
    requires UserToResponse(Project(doc), now).Some?
    ensures UserToResponse(Project(doc), now).value["profile"] == Obj(map[])
    ensures UserToResponse(Project(doc), now).value["user_id"] == Null
  {
    var p := Project(doc);
    assert "profile" !in p && "name" !in p && "uuid" !in p && "user_id" !in p by {
      ProjectKeeps(doc);
    }
    assert ProfileOf(p) == Obj(map[]);
    assert PyOr(Lookup(p, "user_id"), Lookup(p, "uuid")) == Null;
  }

  /** The projection also drops each face's `added_at`, so a user without a stored
      registration time but with faces is reported as registered at the current
      time. */
  lemma ProjectionForgetsAddedAt(doc: Doc, now: string)
    requires "registered_at" !in doc && "faces" in doc
    requires doc["faces"].Arr? && |doc["faces"].items| > 0 && doc["faces"].items[0].Obj?
    ensures RegisteredAt(Project(doc), now) == Some(Str(now))
  {
    var items := doc["faces"].items;
    var projected := ProjectFaces(items);
    ProjectKeeps(doc);
    ProjectFacesKeepsObjects(items);
    assert projected[0] in projected;
    assert "added_at" !in projected[0].fields;
  }
}
