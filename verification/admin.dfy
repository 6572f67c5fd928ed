/** The server's maintenance routes: the timestamp migration over every stored
    user, and deleting one user together with the image files its faces name.
    The database and the file system are parameters: the stored users in
    database order, whether the delete removed a document, and what removing
    each file did. */
module ServerAdmin {
  import opened Values
  import opened ServerDocs

  // ---------------------------------------------------------------------------
  // Timestamp migration

  /** A record needs the migration when either timestamp is falsy. */
  predicate NeedsUpdate(user: Doc) {
    !PyTruthy(Lookup(user, "registered_at")) || !PyTruthy(Lookup(user, "updated_at"))
  }

  /** The fields the migration sets on one record: a missing `registered_at`
      from the first face's `added_at`, else the clock; a missing `updated_at`
      from the stored `registered_at`, else the one just chosen, else the clock.
      None where reading the first face raises. */
  function UpdateFields(user: Doc, now: string): Option<Doc>
  {
    var registered: Option<Doc> :=
      if PyTruthy(Lookup(user, "registered_at")) then Some(map[])
      else
        match FirstFaceAddedAt(FacesOf(user))
        case Added(v) => Some(map["registered_at" := v])
        case NoneAdded => Some(map["registered_at" := Str(now)])
        case Broken => None;
    match registered
    case None => None
    case Some(fields) =>
      if PyTruthy(Lookup(user, "updated_at")) then Some(fields)
      else
        var updated := PyOr(PyOr(Lookup(user, "registered_at"), Get(fields, "registered_at", Null)), Str(now));
        Some(fields["updated_at" := updated])
  }

  /** Only a missing timestamp is written, and `updated_at` takes the stored
      registration time when there is one, else the registration time the
      migration itself writes; with a non-empty clock reading the final clock
      fallback is never used. */
  lemma UpdateFieldsExact(user: Doc, now: string)
    requires now != "" && UpdateFields(user, now).Some?
    ensures var fields := UpdateFields(user, now).value;
      fields.Keys <= {"registered_at", "updated_at"}
      && ("registered_at" in fields <==> !PyTruthy(Lookup(user, "registered_at")))
      && ("updated_at" in fields <==> !PyTruthy(Lookup(user, "updated_at")))
      && ("registered_at" in fields ==> PyTruthy(fields["registered_at"]))
      && ("updated_at" in fields && PyTruthy(Lookup(user, "registered_at")) ==> fields["updated_at"] == user["registered_at"])
      && ("updated_at" in fields && "registered_at" in fields ==> fields["updated_at"] == fields["registered_at"])
  {
    if !PyTruthy(Lookup(user, "registered_at")) {
      match FirstFaceAddedAt(FacesOf(user))
      case Added(v) =>
      case NoneAdded => assert PyTruthy(Str(now));
      case Broken =>
    }
  }

  /** A migrated record needs no further migration: running the migration twice
      updates nothing the second time. */
  lemma MigrationSettles(user: Doc, now: string)
    requires now != "" && UpdateFields(user, now).Some?
    ensures !NeedsUpdate(user + UpdateFields(user, now).value)
  {
    UpdateFieldsExact(user, now);
    var fields := UpdateFields(user, now).value;
    var after := user + fields;
    if "updated_at" in fields && "registered_at" !in fields {
      assert PyTruthy(Lookup(user, "registered_at"));
    }
  }

  /** One `update_one` call: the position of the record and the fields it sets. */
  datatype Update = Update(index: nat, fields: Doc)

  /** The updates the migration issues, and whether it stopped on a record whose
      faces could not be read. The updates issued before that record stay
      applied. */
  datatype MigrationRun = MigrationRun(updates: seq<Update>, failed: bool)

  function Migration(users: seq<Doc>, now: string): (run: MigrationRun)
    ensures |run.updates| <= |users|
    decreases |users|
  {
    if users == [] then MigrationRun([], false)
    else
      var prev := Migration(users[..|users| - 1], now);
      var user := users[|users| - 1];
      if prev.failed then prev
      else if !NeedsUpdate(user) then prev
      else
        match UpdateFields(user, now)
        case None => MigrationRun(prev.updates, true)
        case Some(fields) => MigrationRun(prev.updates + [Update(|users| - 1, fields)], false)
  }

  /** Each update targets a record of `users` that needs it, with the fields
      computed for that record. */
  predicate Targets(users: seq<Doc>, now: string, ups: seq<Update>) {
    forall j :: 0 <= j < |ups| ==>
      ups[j].index < |users| && NeedsUpdate(users[ups[j].index])
      && UpdateFields(users[ups[j].index], now) == Some(ups[j].fields)
  }

  /** The updates come in strictly increasing database order. */
  predicate Increasing(ups: seq<Update>) {
    forall j, k :: 0 <= j < k < |ups| ==> ups[j].index < ups[k].index
  }

  /** Every issued update targets a record that needs it, with the fields
      computed for that record, in strictly increasing database order. */
  lemma {:induction false} MigrationSound(users: seq<Doc>, now: string)
    ensures Targets(users, now, Migration(users, now).updates)
    ensures Increasing(Migration(users, now).updates)
    decreases |users|
  {
    if users != [] {
      var init := users[..|users| - 1];
      var prev := Migration(init, now).updates;
      MigrationSound(init, now);
      MigrationBounded(init, now);
      var ups := Migration(users, now).updates;
      var user := users[|users| - 1];
      if !Migration(init, now).failed && NeedsUpdate(user) && UpdateFields(user, now).Some? {
        var last := Update(|users| - 1, UpdateFields(user, now).value);
        assert ups == prev + [last];
        forall j | 0 <= j < |ups|
          ensures ups[j].index < |users| && NeedsUpdate(users[ups[j].index])
            && UpdateFields(users[ups[j].index], now) == Some(ups[j].fields)
        {
          if j < |prev| {
            assert ups[j] == prev[j] && init[prev[j].index] == users[prev[j].index];
          }
        }
        forall j, k | 0 <= j < k < |ups|
          ensures ups[j].index < ups[k].index
        {
          assert ups[j] == prev[j] && prev[j] in prev;
          if k < |prev| {
            assert ups[k] == prev[k];
          }
        }
      } else {
        assert ups == prev;
        forall j | 0 <= j < |ups|
          ensures ups[j].index < |users| && NeedsUpdate(users[ups[j].index])
            && UpdateFields(users[ups[j].index], now) == Some(ups[j].fields)
        {
          assert init[prev[j].index] == users[prev[j].index];
        }
      }
    }
  }

  /** Every issued update targets a position inside the list. */
  lemma {:induction false} MigrationBounded(users: seq<Doc>, now: string)
    ensures forall u :: u in Migration(users, now).updates ==> u.index < |users|
    decreases |users|
  {
    if users != [] {
      MigrationBounded(users[..|users| - 1], now);
    }
  }

  /** A completed migration updates every record that needs it. */
  lemma {:induction false} MigrationComplete(users: seq<Doc>, now: string)
    requires !Migration(users, now).failed
    ensures var ups := Migration(users, now).updates;
      forall i :: 0 <= i < |users| && NeedsUpdate(users[i]) ==> exists j :: 0 <= j < |ups| && ups[j].index == i
    decreases |users|
  {
    if users != [] {
      var init := users[..|users| - 1];
      var prev := Migration(init, now);
      assert !prev.failed;
      MigrationComplete(init, now);
      var ups := Migration(users, now).updates;
      assert ups[..|prev.updates|] == prev.updates;
      forall i | 0 <= i < |users| && NeedsUpdate(users[i])
        ensures exists j :: 0 <= j < |ups| && ups[j].index == i
      {
        if i < |init| {
          assert init[i] == users[i];
          var j :| 0 <= j < |prev.updates| && prev.updates[j].index == i;
          assert ups[j] == prev.updates[j];
        } else {
          assert ups[|ups| - 1].index == i;
        }
      }
    }
  }

  /** How many records need the migration. */
  function NeedingCount(users: seq<Doc>): nat
    decreases |users|
  {
    if users == [] then 0
    else NeedingCount(users[..|users| - 1]) + (if NeedsUpdate(users[|users| - 1]) then 1 else 0)
  }

  /** A completed migration issues exactly one update per record that needs it,
      so the reported count is the number of such records. */
  lemma {:induction false} MigrationCount(users: seq<Doc>, now: string)
    requires !Migration(users, now).failed
    ensures |Migration(users, now).updates| == NeedingCount(users)
    decreases |users|
  {
    if users != [] {
      var init := users[..|users| - 1];
      assert !Migration(init, now).failed;
      MigrationCount(init, now);
    }
  }

  function MigrationMessage(count: nat): string
  {
    "Migration completed. Updated " + Decimal(count) + " records."
  }

  /** `migrate_timestamps`: the updates it issues, in order, and its answer. */
  method MigrateTimestamps(users: seq<Doc>, now: string, failure: string) returns (issued: seq<Update>, answer: Answer)
    ensures issued == Migration(users, now).updates
    ensures !Migration(users, now).failed ==> answer == Answer(200, map[
      "message" := Str(MigrationMessage(|issued|)), "updated_count" := Num(|issued| as real)])
    ensures Migration(users, now).failed ==> answer == Answer(500, ErrorBody("Migration failed: " + failure))
    ensures !Migration(users, now).failed ==> |issued| == NeedingCount(users)
  {
    var updatedCount := 0;
    issued := [];
    var i := 0;
    while i < |users|
      invariant 0 <= i <= |users|
      invariant Migration(users[..i], now) == MigrationRun(issued, false)
      invariant updatedCount == |issued|
    {
      assert users[..i + 1][..i] == users[..i];
      var user := users[i];
      if NeedsUpdate(user) {
        var fields := UpdateFields(user, now);
        if fields.None? {
          MigrationStops(users, now, i + 1);
          return issued, Answer(500, ErrorBody("Migration failed: " + failure));
        }
        issued := issued + [Update(i, fields.value)];
        updatedCount := updatedCount + 1;
      }
      i := i + 1;
    }
    assert users[..i] == users;
    MigrationCount(users, now);
    return issued, Answer(200, map["message" := Str(MigrationMessage(updatedCount)),
                                   "updated_count" := Num(updatedCount as real)]);
  }

  /** Once the migration has stopped, the later records change nothing. */
  lemma {:induction false} MigrationStops(users: seq<Doc>, now: string, k: nat)
    requires k <= |users| && Migration(users[..k], now).failed
    ensures Migration(users, now) == Migration(users[..k], now)
    decreases |users|
  {
    if k == |users| {
      assert users[..k] == users;
    } else {
      var init := users[..|users| - 1];
      assert init[..k] == users[..k];
      MigrationStops(init, now, k);
    }
  }

  // ---------------------------------------------------------------------------
  // Deleting a user

  /** The position of the first user whose `user_id` equals `userId`. */
  function FirstWithId(users: seq<Doc>, userId: string): (k: Option<nat>)
    ensures k.None? <==> forall i :: 0 <= i < |users| ==> Lookup(users[i], "user_id") != Str(userId)
    ensures k.Some? ==> k.value < |users| && Lookup(users[k.value], "user_id") == Str(userId)
    ensures k.Some? ==> forall i :: 0 <= i < k.value ==> Lookup(users[i], "user_id") != Str(userId)
    decreases |users|
  {
    if users == [] then None
    else if Lookup(users[0], "user_id") == Str(userId) then Some(0)
    else
      match FirstWithId(users[1..], userId)
      case None => None
      case Some(k) => Some(k + 1)
  }

  /** The truthy `image_path` of every face, in order; None where a face is not
      an object. */
  function ImagePaths(items: seq<Json>): (r: Option<seq<Json>>)
    ensures r.Some? ==> |r.value| <= |items| && forall p :: p in r.value ==> PyTruthy(p)
    decreases |items|
  {
    if items == [] then Some([])
    else
      match ImagePaths(items[..|items| - 1])
      case None => None
      case Some(ps) =>
        var f := items[|items| - 1];
        if !f.Obj? then None
        else
          var path := Get(f.fields, "image_path", Null);
          if PyTruthy(path) then Some(ps + [path]) else Some(ps)
  }

  /** A face whose `image_path` the route collects. */
  predicate HasImagePath(f: Json) {
    f.Obj? && PyTruthy(Get(f.fields, "image_path", Null))
  }

  /** Reading the faces raises exactly when one of them is not an object. */
  lemma {:induction false} ImagePathsRaisesIff(items: seq<Json>)
    ensures ImagePaths(items).None? <==> exists i :: 0 <= i < |items| && !items[i].Obj?
    decreases |items|
  {
    if items != [] {
      var init := items[..|items| - 1];
      ImagePathsRaisesIff(init);
      assert forall i :: 0 <= i < |init| ==> init[i] == items[i];
    }
  }

  /** The collected paths are the `image_path` of exactly the faces that have a
      truthy one, in face order: entry `j` belongs to the `j`-th such face. */
  lemma {:induction false} ImagePathsAt(items: seq<Json>)
    requires ImagePaths(items).Some?
    ensures var ix := Positions(items, HasImagePath);
      |ImagePaths(items).value| == |ix|
      && forall j :: 0 <= j < |ix| ==> ImagePaths(items).value[j] == Get(items[ix[j]].fields, "image_path", Null)
    decreases |items|
  {
    if items != [] {
      var init := items[..|items| - 1];
      ImagePathsAt(init);
      var ix0 := Positions(init, HasImagePath);
      assert forall j :: 0 <= j < |ix0| ==> init[ix0[j]] == items[ix0[j]];
    }
  }

  /** The removal loop's state: the files removed so far, the failure records
      in order, and the files still on disk. */
  datatype RemovalRun = RemovalRun(deleted: nat, failed: seq<Json>, present: set<Json>)

  /** The `{"path", "error"}` record of a removal that raised. */
  function FailureRecord(p: Json, e: string): Json
  {
    Obj(map["path" := p, "error" := Str(e)])
  }

  /** The removal loop over the collected paths, starting from the files in
      `present`. A path whose file is on disk is removed and counted, unless
      `os.remove` raises for it (`removeError`), which is recorded and leaves the
      file; a path whose file is not there, never or no longer, is skipped. */
  function Removal(paths: seq<Json>, present: set<Json>, removeError: Json -> Option<string>): RemovalRun
    decreases |paths|
  {
    if paths == [] then RemovalRun(0, [], present)
    else
      var run := Removal(paths[..|paths| - 1], present, removeError);
      var p := paths[|paths| - 1];
      if p !in run.present then run
      else
        match removeError(p)
        case Some(e) => run.(failed := run.failed + [FailureRecord(p, e)])
        case None => run.(deleted := run.deleted + 1, present := run.present - {p})
  }

  /** The files a removal pass can delete: collected paths on disk whose removal
      does not raise. */
  function Removable(paths: seq<Json>, present: set<Json>, removeError: Json -> Option<string>): set<Json>
  {
    set p | p in paths && p in present && removeError(p).None?
  }

  /** Each removable file is deleted exactly once, however many faces name it:
      the count is the number of distinct removable files and exactly those leave
      the disk. */
  lemma {:induction false} RemovalDeletesEachFileOnce(paths: seq<Json>, present: set<Json>,
                                                     removeError: Json -> Option<string>)
    ensures Removal(paths, present, removeError).present == present - Removable(paths, present, removeError)
    ensures Removal(paths, present, removeError).deleted == |Removable(paths, present, removeError)|
    decreases |paths|
  {
    if paths != [] {
      var init := paths[..|paths| - 1];
      var p := paths[|paths| - 1];
      RemovalDeletesEachFileOnce(init, present, removeError);
      var before := Removable(init, present, removeError);
      assert forall q :: q in paths <==> q in init || q == p;
      if p in present && removeError(p).None? && p !in before {
        assert Removable(paths, present, removeError) == before + {p};
      } else {
        assert Removable(paths, present, removeError) == before;
      }
    }
  }

  /** The same file named by two faces is removed and counted once. */
  lemma RepeatedPathRemovedOnce(p: Json, present: set<Json>, removeError: Json -> Option<string>)
    requires p in present && removeError(p).None?
    ensures Removal([p, p], present, removeError) == RemovalRun(1, [], present - {p})
  {
    assert [p, p][..1] == [p];
    assert [p][..0] == [];
    assert Removal([p], present, removeError) == RemovalRun(1, [], present - {p});
  }

  /** Removed and failed together never exceed the paths tried, and something
      fails exactly when some collected file is on disk and its removal raises. */
  lemma {:induction false} RemovalAccounting(paths: seq<Json>, present: set<Json>, removeError: Json -> Option<string>)
    ensures Removal(paths, present, removeError).deleted + |Removal(paths, present, removeError).failed| <= |paths|
    ensures Removal(paths, present, removeError).failed == [] <==>
      forall i :: 0 <= i < |paths| ==> !(paths[i] in present && removeError(paths[i]).Some?)
    decreases |paths|
  {
    if paths != [] {
      var init := paths[..|paths| - 1];
      RemovalAccounting(init, present, removeError);
      RemovalDeletesEachFileOnce(init, present, removeError);
      assert forall i :: 0 <= i < |init| ==> init[i] == paths[i];
    }
  }

  /** The body of a successful delete. */
  function DeletedBody(userId: string, deleted: nat, total: nat, failed: seq<Json>): Doc
  {
    var base := map["message" := Str("User deleted successfully"), "user_id" := Str(userId),
                    "deleted_images" := Num(deleted as real), "total_images" := Num(total as real)];
    if failed == [] then base else base["failed_images" := Arr(failed)]
  }

  /** The delete route's answer, the users left in the database and the files
      left on disk. */
  datatype Deletion = Deletion(remaining: seq<Doc>, files: set<Json>, answer: Answer)

  function Delete(users: seq<Doc>, userId: string, removed: bool, files: set<Json>,
                  removeError: Json -> Option<string>, failure: string): Deletion
  {
    match FirstWithId(users, userId)
    case None => Deletion(users, files, Answer(404, ErrorBody("User not found")))
    case Some(k) =>
      match FaceList(users[k])
      case None => Deletion(users, files, Answer(500, ErrorBody("Error deleting user: " + failure)))
      case Some(items) =>
        match ImagePaths(items)
        case None => Deletion(users, files, Answer(500, ErrorBody("Error deleting user: " + failure)))
        case Some(paths) =>
          if !removed then Deletion(users, files, Answer(500, ErrorBody("Failed to delete user")))
          else
            var run := Removal(paths, files, removeError);
            Deletion(users[..k] + users[k + 1..], run.present,
                     Answer(200, DeletedBody(userId, run.deleted, |paths|, run.failed)))
  }

  /** A successful delete removes exactly the first user with the id and deletes
      each of its removable files once. It reports the number of collected paths
      and, as `deleted_images`, the number of distinct files deleted, which is at
      most that; it lists failures only when some removal raised. */
  lemma DeleteReport(users: seq<Doc>, userId: string, removed: bool, files: set<Json>,
                     removeError: Json -> Option<string>, failure: string)
    requires Delete(users, userId, removed, files, removeError, failure).answer.status == 200
    ensures var d := Delete(users, userId, removed, files, removeError, failure);
      var k := FirstWithId(users, userId).value;
      var paths := ImagePaths(FaceList(users[k]).value).value;
      var gone := Removable(paths, files, removeError);
      d.remaining == users[..k] + users[k + 1..]
      && |d.remaining| == |users| - 1
      && d.files == files - gone
      && d.answer.body["total_images"] == Num(|paths| as real)
      && d.answer.body["deleted_images"] == Num(|gone| as real)
      && |gone| <= |paths|
      && ("failed_images" in d.answer.body <==>
            exists i :: 0 <= i < |paths| && paths[i] in files && removeError(paths[i]).Some?)
  {
    var k := FirstWithId(users, userId).value;
    var paths := ImagePaths(FaceList(users[k]).value).value;
    RemovalAccounting(paths, files, removeError);
    RemovalDeletesEachFileOnce(paths, files, removeError);
  }

  /** A user that is not stored is reported as not found and nothing changes. */
  lemma DeleteMissing(users: seq<Doc>, userId: string, removed: bool, files: set<Json>,
                      removeError: Json -> Option<string>, failure: string)
    requires forall i :: 0 <= i < |users| ==> Lookup(users[i], "user_id") != Str(userId)
    ensures Delete(users, userId, removed, files, removeError, failure)
         == Deletion(users, files, Answer(404, ErrorBody("User not found")))
  {
  }

  /** The path-collecting loop of the route. */
  method CollectImagePaths(items: seq<Json>) returns (paths: Option<seq<Json>>)
    ensures paths == ImagePaths(items)
  {
    var acc: seq<Json> := [];
    var i := 0;
    while i < |items|
      invariant 0 <= i <= |items|
      invariant ImagePaths(items[..i]) == Some(acc)
    {
      assert items[..i + 1][..i] == items[..i];
      if !items[i].Obj? {
        ImagePathsPrefixRaises(items, i + 1);
        return None;
      }
      var path := Get(items[i].fields, "image_path", Null);
      if PyTruthy(path) {
        acc := acc + [path];
      }
      i := i + 1;
    }
    assert items[..i] == items;
    return Some(acc);
  }

  lemma {:induction false} ImagePathsPrefixRaises(items: seq<Json>, k: nat)
    requires k <= |items| && ImagePaths(items[..k]).None?
    ensures ImagePaths(items).None?
    decreases |items|
  {
    if k == |items| {
      assert items[..k] == items;
    } else {
      var init := items[..|items| - 1];
      assert init[..k] == items[..k];
      ImagePathsPrefixRaises(init, k);
    }
  }

  /** The file-removal loop of the route, on the set of files on disk. */
  method RemoveImages(paths: seq<Json>, files: set<Json>, removeError: Json -> Option<string>)
    returns (deleted: nat, failed: seq<Json>, left: set<Json>)
    ensures RemovalRun(deleted, failed, left) == Removal(paths, files, removeError)
  {
    deleted, failed, left := 0, [], files;
    var i := 0;
    while i < |paths|
      invariant 0 <= i <= |paths|
      invariant RemovalRun(deleted, failed, left) == Removal(paths[..i], files, removeError)
    {
      assert paths[..i + 1][..i] == paths[..i];
      var p := paths[i];
      if p in left {
        match removeError(p) {
          case Some(e) => failed := failed + [FailureRecord(p, e)];
          case None =>
            left := left - {p};
            deleted := deleted + 1;
        }
      }
      i := i + 1;
    }
    assert paths[..i] == paths;
  }

  /** `delete_user_by_userid`, written as the route's steps. */
  method DeleteUser(users: seq<Doc>, userId: string, removed: bool, files: set<Json>,
                    removeError: Json -> Option<string>, failure: string)
    returns (d: Deletion)
    ensures d == Delete(users, userId, removed, files, removeError, failure)
  {
    var found := FirstWithId(users, userId);
    if found.None? {
      return Deletion(users, files, Answer(404, ErrorBody("User not found")));
    }
    var k := found.value;
    var faces := FaceList(users[k]);
    if faces.None? {
      return Deletion(users, files, Answer(500, ErrorBody("Error deleting user: " + failure)));
    }
    var paths := CollectImagePaths(faces.value);
    if paths.None? {
      return Deletion(users, files, Answer(500, ErrorBody("Error deleting user: " + failure)));
    }
    if !removed {
      return Deletion(users, files, Answer(500, ErrorBody("Failed to delete user")));
    }
    var deleted, failed, left := RemoveImages(paths.value, files, removeError);
    return Deletion(users[..k] + users[k + 1..], left, Answer(200, DeletedBody(userId, deleted, |paths.value|, failed)));
  }
}
