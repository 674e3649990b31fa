/** The rows of the video-sharing backend's relational store, as values.
    Users, videos, comments and tags follow the declarations of app/models.py;
    the like, dislike and tag association tables are the set-valued fields
    of a video. */
module Domain {

  /** A UUID in its canonical text form: the primary key of every table. */
  type Uuid = string

  datatype Option<+T> = None | Some(value: T)

  /** A request parameter after the UUID parser has looked at it. Path and
      form parameters arrive as text; text that is not a UUID cannot be
      looked up in a UUID column. */
  datatype PathId = Parsed(id: Uuid) | Unparsable(text: string)

  /** A bcrypt digest as a symbolic term. The model never reads `secret`
      except through `CheckPw`, which accepts exactly the password the
      digest was made from; the salt is the random part of `gensalt`. */
  datatype Digest = Bcrypt(salt: string, secret: string)

  /** `encode` (app/services/auth_service.py:7-10). */
  function Encode(password: string, salt: string): Digest
  {
    Bcrypt(salt, password)
  }

  /** `bcrypt.checkpw` against a stored digest. */
  predicate CheckPw(password: string, d: Digest)
  {
    d.secret == password
  }

  /** A digest accepts the password it was made from, whatever the salt,
      and no other password. */
  lemma EncodeThenCheck(password: string, salt: string, attempt: string)
    ensures CheckPw(password, Encode(password, salt))
    ensures CheckPw(attempt, Encode(password, salt)) <==> attempt == password
  {
  }

  /** A profile image descriptor `{fileId, url, is_default}`. */
  datatype Image = Image(fileId: string, url: string, isDefault: bool)

  /** The descriptor a deleted profile image is replaced with. */
  const DefaultImage := Image("default_file_id", "default_img_url", true)

  /** A stored file descriptor `{fileId, url}` as the blob storage returns it. */
  datatype Blob = Blob(fileId: string, url: string)

  /** A file part of a multipart request; only its client file name matters here. */
  datatype FilePart = FilePart(filename: string)

  datatype User = User(
    email: string,
    username: string,
    password: Digest,
    firstName: string,
    lastName: string,
    cover: string,
    profileImg: Option<Image>)

  datatype Video = Video(
    title: string,
    description: string,
    views: nat,
    owner: Uuid,
    src: Blob,
    thumbnail: Blob,
    tags: set<Uuid>,
    likedBy: set<Uuid>,
    dislikedBy: set<Uuid>)

  datatype Comment = Comment(text: string, videoId: Uuid, userId: Uuid)

  datatype Tag = Tag(title: string)

  /** The four tables of the store. */
  datatype Tables = Tables(
    users: map<Uuid, User>,
    videos: map<Uuid, Video>,
    comments: map<Uuid, Comment>,
    tags: map<Uuid, Tag>)

  /** Why an upload was refused with a `ValueError`. */
  datatype Rejection =
    | VideoMissing
    | ThumbnailMissing
    | VideoNotSelected
    | VideoTypeUnsupported(ext: string)
    | ThumbnailNotSelected
    | ThumbnailTypeUnsupported(ext: string)
    | TagsNotFound(ids: set<Uuid>)

  /** How a service call ends: it returns a value, raises `ValueError`,
      or raises any other exception. */
  datatype Outcome<+T> = Ok(value: T) | ValueErr(reason: Rejection) | Raised

  /** Email and username are unique columns. */
  predicate UniqueAccounts(users: map<Uuid, User>)
  {
    forall a, b :: a in users && b in users && a != b ==>
      users[a].email != users[b].email && users[a].username != users[b].username
  }

  /** A user appears in at most one of a video's two reaction sets. */
  predicate ReactionsExclusive(v: Video)
  {
    v.likedBy !! v.dislikedBy
  }

  /** The foreign keys of a video row and its association rows hold,
      and its reactions are exclusive. */
  predicate VideoRowConsistent(t: Tables, v: Video)
  {
    && v.owner in t.users
    && v.tags <= t.tags.Keys
    && v.likedBy <= t.users.Keys
    && v.dislikedBy <= t.users.Keys
    && ReactionsExclusive(v)
  }

  /** What the store guarantees, and the handlers maintain, between
      requests: unique accounts and foreign keys, which the database
      enforces, and exclusive reactions, which only the toggle code keeps. */
  predicate Consistent(t: Tables)
  {
    && UniqueAccounts(t.users)
    && (forall id :: id in t.videos ==> VideoRowConsistent(t, t.videos[id]))
    && (forall id :: id in t.comments ==>
          t.comments[id].videoId in t.videos && t.comments[id].userId in t.users)
  }
}
