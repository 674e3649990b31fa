/** `CommentService` (app/services/comment_service.py): writing, listing
    and deleting comments, and the two checks the handlers run first. */
module CommentService {
  import opened Domain
  import opened Store
  import VideoService

  /** Inserting a comment whose video and author exist keeps the store
      consistent. */
  lemma {:induction false} AddCommentKeepsConsistent(t: Tables, id: Uuid, c: Comment)
    requires Consistent(t)
    requires c.videoId in t.videos && c.userId in t.users
    ensures Consistent(t.(comments := t.comments[id := c]))
  {
    var t' := t.(comments := t.comments[id := c]);
    forall w | w in t'.videos
      ensures VideoRowConsistent(t', t'.videos[w])
    {
      assert VideoRowConsistent(t, t.videos[w]);
    }
  }

  /** `createComment` (app/services/comment_service.py:8-16). The row is
      built from the path's video id and the caller's id; the commit fails
      when the video id cannot be cast to a UUID, when either foreign key
      has no row, or (`commitOk` false) for a reason of the store's own. */
  method CreateComment(db: Database, userId: Uuid, videoId: PathId, text: string, newId: Uuid, commitOk: bool)
    returns (r: Outcome<Uuid>)
    requires db.Valid()
    requires newId !in db.comments
    modifies db
    ensures db.Valid()
    ensures r.Ok? <==> VideoService.VideoExists(old(db.videos), videoId) && userId in old(db.users) && commitOk
    ensures r.Ok? ==>
      && r.value == newId
      && db.State() == old(db.State()).(comments := old(db.comments)[newId := Comment(text, videoId.id, userId)])
    ensures !r.Ok? ==> r == Raised && db.State() == old(db.State())
  {
    if videoId.Unparsable? || videoId.id !in db.videos || userId !in db.users || !commitOk {
      return Raised;
    }
    var comment := Comment(text, videoId.id, userId);
    AddCommentKeepsConsistent(db.State(), newId, comment);
    db.comments := db.comments[newId := comment];
    r := Ok(newId);
  }

  /** `is_video_available` (app/services/comment_service.py:27-34): a query
      by primary key; text that is not a UUID makes it raise. */
  function IsVideoAvailable(videos: map<Uuid, Video>, id: PathId): (r: Outcome<bool>)
    ensures r.Raised? <==> id.Unparsable?
    ensures r.Ok? ==> (r.value <==> VideoService.VideoExists(videos, id))
    ensures !r.ValueErr?
  {
    if id.Unparsable? then Raised else Ok(id.id in videos)
  }

  /** `checking_user_eligibility` (app/services/comment_service.py:36-61):
      whether the comment exists and was written by the caller. Every
      exception (an id that is not a UUID among them) is caught and
      answered `False`. */
  function CheckingUserEligibility(comments: map<Uuid, Comment>, userId: Uuid, commentId: PathId): (r: bool)
    ensures r <==> exists c :: commentId == Parsed(c) && c in comments && comments[c].userId == userId
  {
    assert commentId.Parsed? ==> commentId == Parsed(commentId.id);
    commentId.Parsed? && commentId.id in comments && comments[commentId.id].userId == userId
  }

  /** `get_comments` (app/services/comment_service.py:65-78): the comments on
      one video, keyed by their ids; the query has no ordering. */
  function GetComments(comments: map<Uuid, Comment>, videoId: Uuid): (r: map<Uuid, Comment>)
    ensures forall c :: c in r <==> c in comments && comments[c].videoId == videoId
    ensures forall c :: c in r ==> r[c] == comments[c]
  {
    map c | c in comments && comments[c].videoId == videoId :: comments[c]
  }

  /** `delete_comment` (app/services/comment_service.py:80-87): true when a
      row was deleted, false when there was none. */
  method DeleteComment(db: Database, commentId: PathId) returns (r: Outcome<bool>)
    requires db.Valid()
    modifies db
    ensures db.Valid()
    ensures commentId.Unparsable? ==> r == Raised && db.State() == old(db.State())
    ensures commentId.Parsed? ==>
      && r == Ok(commentId.id in old(db.comments))
      && db.State() == old(db.State()).(comments := old(db.comments) - {commentId.id})
  {
    if commentId.Unparsable? {
      return Raised;
    }
    if commentId.id !in db.comments {
      return Ok(false);
    }
    db.comments := db.comments - {commentId.id};
    r := Ok(true);
  }

  /** A comment just written is listed under its video, with its text. */
  lemma WrittenCommentIsListed(comments: map<Uuid, Comment>, id: Uuid, c: Comment)
    ensures id in GetComments(comments[id := c], c.videoId)
    ensures GetComments(comments[id := c], c.videoId)[id].text == c.text
  {
  }

  /** A deleted comment is listed under no video. */
  lemma DeletedCommentIsNotListed(comments: map<Uuid, Comment>, id: Uuid, videoId: Uuid)
    ensures id !in GetComments(comments - {id}, videoId)
  {
  }

  /** Deleting a video leaves it no comments. */
  lemma {:induction false} DeletedVideoHasNoComments(t: Tables, id: Uuid)
    ensures GetComments(VideoService.WithoutVideo(t, id).comments, id) == map[]
  {
    var r := GetComments(VideoService.WithoutVideo(t, id).comments, id);
    assert forall c :: c !in r;
  }
}
