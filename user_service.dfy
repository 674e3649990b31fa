/** `UserService` (app/services/user_service.py): the profile read and the
    two writes of a user's profile image. */
module UserService {
  import opened Domain
  import opened Store

  /** The fields `get_me` reports. The password digest is not one of them. */
  datatype UserView = UserView(
    id: Uuid,
    email: string,
    firstName: string,
    lastName: string,
    username: string,
    profileImg: Option<Image>,
    cover: string)

  /** `get_me` (app/services/user_service.py:8-23): the user's public fields,
      or `None` when no user has the id. */
  function GetMe(users: map<Uuid, User>, id: Uuid): (r: Option<UserView>)
    ensures r.None? <==> id !in users
    ensures r.Some? ==>
      var u := users[id];
      && r.value.id == id && r.value.email == u.email && r.value.username == u.username
      && r.value.firstName == u.firstName && r.value.lastName == u.lastName
      && r.value.profileImg == u.profileImg && r.value.cover == u.cover
  {
    if id !in users then None
    else
      var u := users[id];
      Some(UserView(id, u.email, u.firstName, u.lastName, u.username, u.profileImg, u.cover))
  }

  /** Two users that differ only in their password digest read the same:
      the view carries nothing of the password. */
  lemma GetMeHidesPassword(users: map<Uuid, User>, id: Uuid, d: Digest)
    requires id in users
    ensures GetMe(users[id := users[id].(password := d)], id) == GetMe(users, id)
  {
  }

  /** Replacing a user row by one with the same email and username keeps
      the store consistent. */
  lemma {:induction false} ReplaceUserKeepsConsistent(t: Tables, id: Uuid, u: User)
    requires Consistent(t) && id in t.users
    requires u.email == t.users[id].email && u.username == t.users[id].username
    ensures Consistent(t.(users := t.users[id := u]))
  {
    var t' := t.(users := t.users[id := u]);
    forall a, b | a in t'.users && b in t'.users && a != b
      ensures t'.users[a].email != t'.users[b].email && t'.users[a].username != t'.users[b].username
    {
      assert t.users[a].email != t.users[b].email && t.users[a].username != t.users[b].username;
    }
    forall w | w in t'.videos
      ensures VideoRowConsistent(t', t'.videos[w])
    {
      assert VideoRowConsistent(t, t.videos[w]);
    }
  }

  /** Sets one user's `profile_img` and commits; the query finds no user
      when the id has none, and the attribute assignment then raises.
      `commitOk` is whether the commit succeeds. Shared by `upload_image`
      and `delete_profile_img`, which differ only in the descriptor. */
  method SetProfileImg(db: Database, userId: Uuid, info: Option<Image>, commitOk: bool) returns (raised: bool)
    requires db.Valid()
    modifies db
    ensures db.Valid()
    ensures raised <==> userId !in old(db.users) || !commitOk
    ensures !raised ==>
      db.State() == old(db.State()).(users := old(db.users)[userId := old(db.users)[userId].(profileImg := info)])
    ensures raised ==> db.State() == old(db.State())
  {
    if userId !in db.users || !commitOk {
      return true;
    }
    var user := db.users[userId].(profileImg := info);
    ReplaceUserKeepsConsistent(db.State(), userId, user);
    db.users := db.users[userId := user];
    raised := false;
  }

  /** `upload_image` (app/services/user_service.py:26-30). */
  method UploadImage(db: Database, userId: Uuid, info: Option<Image>, commitOk: bool) returns (raised: bool)
    requires db.Valid()
    modifies db
    ensures db.Valid()
    ensures raised <==> userId !in old(db.users) || !commitOk
    ensures !raised ==>
      db.State() == old(db.State()).(users := old(db.users)[userId := old(db.users)[userId].(profileImg := info)])
    ensures raised ==> db.State() == old(db.State())
  {
    raised := SetProfileImg(db, userId, info, commitOk);
  }

  /** `delete_profile_img` (app/services/user_service.py:33-37). */
  method DeleteProfileImg(db: Database, userId: Uuid, info: Option<Image>, commitOk: bool) returns (raised: bool)
    requires db.Valid()
    modifies db
    ensures db.Valid()
    ensures raised <==> userId !in old(db.users) || !commitOk
    ensures !raised ==>
      db.State() == old(db.State()).(users := old(db.users)[userId := old(db.users)[userId].(profileImg := info)])
    ensures raised ==> db.State() == old(db.State())
  {
    raised := SetProfileImg(db, userId, info, commitOk);
  }

  /** After a profile image write the read shows the new descriptor and
      every other field as before. */
  lemma ProfileImgWriteIsRead(users: map<Uuid, User>, id: Uuid, info: Option<Image>)
    requires id in users
    ensures var r := GetMe(users[id := users[id].(profileImg := info)], id);
      && r.Some? && r.value.profileImg == info
      && r.value == GetMe(users, id).value.(profileImg := info)
  {
  }
}
