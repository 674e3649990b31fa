/** The comment handlers (app/routes/comment_route.py). Results are HTTP
    status codes. */
module CommentRoute {
  import opened Domain
  import opened Store
  import opened Schemas
  import opened CommentService
  import VideoService

  /** `write_comment` (app/routes/comment_route.py:8-24). Every failure,
      a body the schema refuses (`text` is `None` when the body has no
      text) included, is caught by the one handler and answered 500. */
  method WriteComment(db: Database, userId: Uuid, videoId: PathId, text: Option<string>, newId: Uuid, commitOk: bool)
    returns (code: nat)
    requires db.Valid()
    requires newId !in db.comments
    modifies db
    ensures db.Valid()
    ensures code == 200 || code == 500
    ensures code == 200 <==>
      && text.Some? && ValidCommentText(text.value)
      && VideoService.VideoExists(old(db.videos), videoId) && userId in old(db.users) && commitOk
    ensures code == 200 ==>
      db.State() == old(db.State()).(comments := old(db.comments)[newId := Comment(text.value, videoId.id, userId)])
    ensures code == 500 ==> db.State() == old(db.State())
  {
    if text.None? || !ValidCommentText(text.value) {
      return 500;
    }
    var r := CreateComment(db, userId, videoId, text.value, newId, commitOk);
    code := if r.Ok? then 200 else 500;
  }

  /** `delete_comment` (app/routes/comment_route.py:26-47): 403 unless the
      caller wrote the comment, which includes a comment that does not
      exist; otherwise the comment is deleted (200). The 404 branch cannot
      be reached. */
  method DeleteComment(db: Database, userId: Uuid, commentId: PathId) returns (code: nat)
    requires db.Valid()
    modifies db
    ensures db.Valid()
    ensures !CheckingUserEligibility(old(db.comments), userId, commentId) ==>
      code == 403 && db.State() == old(db.State())
    ensures CheckingUserEligibility(old(db.comments), userId, commentId) ==>
      && code == 200
      && db.State() == old(db.State()).(comments := old(db.comments) - {commentId.id})
  {
    if !CheckingUserEligibility(db.comments, userId, commentId) {
      return 403;
    }
    var r := CommentService.DeleteComment(db, commentId);
    if r != Ok(true) {
      // an eligible comment exists and its id parses
      assert false;
    }
    code := 200;
  }

  /** The answer of `get_video_comments`: a status and the listed comments. */
  datatype Listing = Listing(code: nat, comments: map<Uuid, Comment>)

  /** `get_video_comments` (app/routes/comment_route.py:50-66): 500 when the
      id is not a UUID (the availability query raises), 404 for a missing
      video, otherwise 200 with the video's comments. */
  function GetVideoComments(t: Tables, videoId: PathId): (r: Listing)
    ensures r.code == 500 <==> videoId.Unparsable?
    ensures r.code == 404 <==> videoId.Parsed? && videoId.id !in t.videos
    ensures r.code == 200 <==> VideoService.VideoExists(t.videos, videoId)
    ensures r.code == 200 ==> r.comments == GetComments(t.comments, videoId.id)
    ensures r.code != 200 ==> r.comments == map[]
  {
    var available := IsVideoAvailable(t.videos, videoId);
    if available.Raised? then Listing(500, map[])
    else if available == Ok(true) then Listing(200, GetComments(t.comments, videoId.id))
    else Listing(404, map[])
  }

  /** Writing a comment (200) and then listing the video shows it; deleting
      it again hides it. */
  lemma WriteThenList(t: Tables, userId: Uuid, videoId: Uuid, text: string, id: Uuid)
    requires videoId in t.videos
    ensures var t1 := t.(comments := t.comments[id := Comment(text, videoId, userId)]);
      && GetVideoComments(t1, Parsed(videoId)).code == 200
      && id in GetVideoComments(t1, Parsed(videoId)).comments
      && var t2 := t1.(comments := t1.comments - {id});
      id !in GetVideoComments(t2, Parsed(videoId)).comments
  {
    WrittenCommentIsListed(t.comments, id, Comment(text, videoId, userId));
  }
}
