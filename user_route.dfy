/** The profile handlers (app/routes/user_route.py). Results are HTTP
    status codes; `userId` is the caller's identity. */
module UserRoute {
  import opened Domain
  import opened Store
  import opened Uploads
  import opened Schemas
  import opened AuthService
  import opened UserService

  /** The user after an update: each of the three fields present in the
      request is replaced, and nothing else changes. */
  function ApplyUpdate(u: User, upd: UserUpdate): (r: User)
    ensures r.firstName == (if upd.firstName.Some? then upd.firstName.value else u.firstName)
    ensures r.lastName == (if upd.lastName.Some? then upd.lastName.value else u.lastName)
    ensures r.cover == (if upd.cover.Some? then upd.cover.value else u.cover)
    ensures r == u.(firstName := r.firstName, lastName := r.lastName, cover := r.cover)
  {
    var u1 := if upd.firstName.Some? then u.(firstName := upd.firstName.value) else u;
    var u2 := if upd.lastName.Some? then u1.(lastName := upd.lastName.value) else u1;
    if upd.cover.Some? then u2.(cover := upd.cover.value) else u2
  }

  /** Applying the same update twice is applying it once. */
  lemma UpdateIsIdempotent(u: User, upd: UserUpdate)
    ensures ApplyUpdate(ApplyUpdate(u, upd), upd) == ApplyUpdate(u, upd)
  {
  }

  /** A valid update keeps the row within its column widths. */
  lemma ValidUpdateFitsColumns(u: User, upd: UserUpdate)
    requires FitsColumns(u) && ValidUserUpdate(upd)
    ensures FitsColumns(ApplyUpdate(u, upd))
  {
  }

  /** `update_user` (app/routes/user_route.py:59-109): 404 when the caller has
      no row, 400 when the schema refuses the body, otherwise the present
      fields are written; `commitOk` is whether the commit succeeds (500
      when it does not). */
  method UpdateUser(db: Database, userId: Uuid, upd: UserUpdate, commitOk: bool) returns (code: nat)
    requires db.Valid()
    modifies db
    ensures db.Valid()
    ensures userId !in old(db.users) ==> code == 404 && db.State() == old(db.State())
    ensures userId in old(db.users) && !ValidUserUpdate(upd) ==> code == 400 && db.State() == old(db.State())
    ensures userId in old(db.users) && ValidUserUpdate(upd) ==>
      && code == (if commitOk then 200 else 500)
      && (commitOk ==> db.State() == old(db.State()).(users := old(db.users)[userId := ApplyUpdate(old(db.users)[userId], upd)]))
      && (!commitOk ==> db.State() == old(db.State()))
  {
    if userId !in db.users {
      return 404;
    }
    if !ValidUserUpdate(upd) {
      return 400;
    }
    if !commitOk {
      return 500;
    }
    var user := ApplyUpdate(db.users[userId], upd);
    ReplaceUserKeepsConsistent(db.State(), userId, user);
    db.users := db.users[userId := user];
    code := 200;
  }

  /** The file ids the profile upload deletes as the old image: the current
      image's, when there is one, it is not the default, and its deletion
      does not fail. */
  function StaleImage(u: User, deleteOk: bool): (r: set<string>)
    ensures r != {} <==> u.profileImg.Some? && !u.profileImg.value.isDefault && deleteOk
    ensures r != {} ==> r == {u.profileImg.value.fileId}
  {
    if u.profileImg.Some? && !u.profileImg.value.isDefault && deleteOk then {u.profileImg.value.fileId} else {}
  }

  /** `upload_profile_img` (app/routes/user_route.py:112-197). `upload` is what
      the storage returns for the new image, `oldDeleteOk` whether deleting
      the old image succeeds (a failure there is ignored), `commitOk`
      whether the commit succeeds. When the commit fails the new file is
      deleted again, while the old one stays deleted. */
  method UploadProfileImg(db: Database, storage: BlobStorage, userId: Uuid, image: Option<FilePart>,
                          upload: Blob, oldDeleteOk: bool, commitOk: bool) returns (code: nat)
    requires db.Valid()
    requires upload.fileId !in storage.live
    modifies db, storage
    ensures db.Valid()
    ensures userId !in old(db.users) ==>
      code == 404 && db.State() == old(db.State()) && storage.live == old(storage.live)
    ensures userId in old(db.users) && !Accepted(image, ProfileImageTypes) ==>
      code == 400 && db.State() == old(db.State()) && storage.live == old(storage.live)
    ensures userId in old(db.users) && Accepted(image, ProfileImageTypes) ==>
      var stale := StaleImage(old(db.users)[userId], oldDeleteOk);
      if commitOk then
        && code == 200
        && db.State() == old(db.State()).(users := old(db.users)[userId :=
             old(db.users)[userId].(profileImg := Some(Image(upload.fileId, upload.url, false)))])
        && storage.live == (old(storage.live) + {upload.fileId}) - stale
      else
        && code == 500
        && db.State() == old(db.State())
        && storage.live == ((old(storage.live) + {upload.fileId}) - stale) - {upload.fileId}
  {
    if userId !in db.users {
      return 404;
    }
    if image.None? {
      return 400;
    }
    if image.value.filename == "" {
      return 400;
    }
    if Extension(image.value.filename) !in ProfileImageTypes {
      return 400;
    }
    storage.Upload(upload);
    var info := Image(upload.fileId, upload.url, false);
    var current := db.users[userId].profileImg;
    if current.Some? && !current.value.isDefault && oldDeleteOk {
      storage.DeleteFile(current.value.fileId);
    }
    var raised := UploadImage(db, userId, Some(info), commitOk);
    if raised {
      storage.DeleteFile(upload.fileId);
      return 500;
    }
    code := 200;
  }

  /** `delete_profile_img` (app/routes/user_route.py:198-234): 500 when the
      caller has no row or no image at all (the guard indexes nothing), 400
      when the image is the default, otherwise the file is deleted
      (`deleteOk` whether that succeeds) and the default descriptor stored
      (`commitOk` whether that commit succeeds). */
  method DeleteProfileImg(db: Database, storage: BlobStorage, userId: Uuid, deleteOk: bool, commitOk: bool)
    returns (code: nat)
    requires db.Valid()
    modifies db, storage
    ensures db.Valid()
    ensures userId !in old(db.users) || old(db.users)[userId].profileImg.None? ==>
      code == 500 && db.State() == old(db.State()) && storage.live == old(storage.live)
    ensures userId in old(db.users) && old(db.users)[userId].profileImg.Some? ==>
      var img := old(db.users)[userId].profileImg.value;
      && (img.isDefault ==> code == 400 && db.State() == old(db.State()) && storage.live == old(storage.live))
      && (!img.isDefault && !deleteOk ==> code == 500 && db.State() == old(db.State()) && storage.live == old(storage.live))
      && (!img.isDefault && deleteOk ==>
            && storage.live == old(storage.live) - {img.fileId}
            && code == (if commitOk then 200 else 500)
            && (commitOk ==> db.State() == old(db.State()).(users := old(db.users)[userId :=
                   old(db.users)[userId].(profileImg := Some(DefaultImage))]))
            && (!commitOk ==> db.State() == old(db.State())))
  {
    if userId !in db.users || db.users[userId].profileImg.None? {
      return 500;
    }
    var img := db.users[userId].profileImg.value;
    if img.isDefault {
      return 400;
    }
    if !deleteOk {
      return 500;
    }
    storage.DeleteFile(img.fileId);
    var raised := UserService.DeleteProfileImg(db, userId, Some(DefaultImage), commitOk);
    code := if raised then 500 else 200;
  }

  /** Whether some row refers to the user through one of its relationships:
      a video it owns, a comment it wrote, a like or a dislike, or a short
      (`hasShorts`; the shorts table is not part of this model). */
  predicate HasRelatedRows(t: Tables, userId: Uuid, hasShorts: bool)
  {
    || hasShorts
    || (exists v :: v in t.videos &&
          (t.videos[v].owner == userId || userId in t.videos[v].likedBy || userId in t.videos[v].dislikedBy))
    || (exists c :: c in t.comments && t.comments[c].userId == userId)
  }

  /** `delete_me` (app/routes/user_route.py:236-249): 404 for a caller with no
      row; otherwise the handler serializes the row and deletes nothing.
      The serializer (app/utils/serialize_data.py:16-26) follows every
      relationship with no record of what it has visited, and each related
      row leads back to the user, so for a user with any related row it
      recurses until Python gives up and the request answers 500. Only a
      user no row refers to gets 200. */
  function DeleteMe(t: Tables, userId: Uuid, hasShorts: bool): (code: nat)
    ensures code == 404 <==> userId !in t.users
    ensures code == 500 <==> userId in t.users && HasRelatedRows(t, userId, hasShorts)
    ensures code == 200 <==> userId in t.users && !HasRelatedRows(t, userId, hasShorts)
  {
    if userId !in t.users then 404
    else if HasRelatedRows(t, userId, hasShorts) then 500
    else 200
  }

  /** A user who has just been inserted is referred to by no row, so
      `delete-me` answers 200 for it; once the user owns a video, the same
      request answers 500. */
  lemma {:induction false} DeleteMeFreshThenOwner(t: Tables, id: Uuid, u: User, videoId: Uuid, v: Video)
    requires Consistent(t) && id !in t.users
    requires v.owner == id
    ensures DeleteMe(t.(users := t.users[id := u]), id, false) == 200
    ensures DeleteMe(t.(users := t.users[id := u], videos := t.videos[videoId := v]), id, false) == 500
  {
    var t' := t.(users := t.users[id := u]);
    forall w | w in t'.videos
      ensures t'.videos[w].owner != id && id !in t'.videos[w].likedBy && id !in t'.videos[w].dislikedBy
    {
      assert VideoRowConsistent(t, t.videos[w]);
    }
    forall c | c in t'.comments
      ensures t'.comments[c].userId != id
    {
      assert t.comments[c].userId in t.users;
    }
    var t2 := t.(users := t.users[id := u], videos := t.videos[videoId := v]);
    assert videoId in t2.videos && t2.videos[videoId].owner == id;
  }

  /** `get_user` (app/routes/user_route.py:17-56): the caller's profile (200)
      or 404. */
  function GetUser(users: map<Uuid, User>, userId: Uuid): (r: (nat, Option<UserView>))
    ensures r.0 == 404 <==> userId !in users
    ensures r.0 == 200 <==> userId in users
    ensures r.1 == GetMe(users, userId)
  {
    var data := GetMe(users, userId);
    if data.None? then (404, None) else (200, data)
  }
}
