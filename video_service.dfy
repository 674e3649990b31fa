/** `VideoService` (app/services/video_service.py): uploading a video with
    its thumbnail, reading it (which counts a view), the ownership check and
    deletion. The allowed video and image extensions are parameters:
    app/constants.py is not part of this model. */
module VideoService {
  import opened Domain
  import opened Store
  import opened Uploads

  /** The `video` and `thumbnail` file parts of an upload request. */
  datatype UploadFiles = UploadFiles(video: Option<FilePart>, thumbnail: Option<FilePart>)

  /** The file checks of `upload_video`, in the order they run; `None` when
      both parts pass. */
  function CheckUploadFiles(f: UploadFiles, videoTypes: set<string>, imageTypes: set<string>): (r: Option<Rejection>)
    ensures r.None? <==> Accepted(f.video, videoTypes) && Accepted(f.thumbnail, imageTypes)
    ensures f.video.None? ==> r == Some(VideoMissing)
    ensures f.video.Some? && f.thumbnail.None? ==> r == Some(ThumbnailMissing)
    ensures r.Some? && r.value.VideoTypeUnsupported? ==>
      f.video.Some? && r.value.ext == Extension(f.video.value.filename) && r.value.ext !in videoTypes
    ensures r.Some? && r.value.ThumbnailTypeUnsupported? ==>
      f.thumbnail.Some? && r.value.ext == Extension(f.thumbnail.value.filename) && r.value.ext !in imageTypes
    ensures Accepted(f.video, videoTypes) && r.Some? ==>
      r.value.ThumbnailMissing? || r.value.ThumbnailNotSelected? || r.value.ThumbnailTypeUnsupported?
  {
    if f.video.None? then Some(VideoMissing)
    else if f.thumbnail.None? then Some(ThumbnailMissing)
    else if f.video.value.filename == "" then Some(VideoNotSelected)
    else if Extension(f.video.value.filename) !in videoTypes then
      Some(VideoTypeUnsupported(Extension(f.video.value.filename)))
    else if f.thumbnail.value.filename == "" then Some(ThumbnailNotSelected)
    else if Extension(f.thumbnail.value.filename) !in imageTypes then
      Some(ThumbnailTypeUnsupported(Extension(f.thumbnail.value.filename)))
    else None
  }

  /** The row `upload_video` inserts: no views, no reactions yet, and the
      requested tags. */
  function NewVideo(title: string, description: string, owner: Uuid, src: Blob, thumbnail: Blob, tags: set<Uuid>): (v: Video)
    ensures v.views == 0 && v.likedBy == {} && v.dislikedBy == {}
    ensures v.owner == owner && v.tags == tags && v.src == src && v.thumbnail == thumbnail
    ensures ReactionsExclusive(v)
  {
    Video(title, description, 0, owner, src, thumbnail, tags, {}, {})
  }

  /** Inserting a video whose owner and tags exist keeps the store consistent. */
  lemma {:induction false} AddVideoKeepsConsistent(t: Tables, id: Uuid, v: Video)
    requires Consistent(t)
    requires VideoRowConsistent(t, v)
    ensures Consistent(t.(videos := t.videos[id := v]))
  {
    var t' := t.(videos := t.videos[id := v]);
    forall w | w in t'.videos
      ensures VideoRowConsistent(t', t'.videos[w])
    {
      if w != id {
        assert VideoRowConsistent(t, t.videos[w]);
      }
    }
  }

  /** `upload_video` (app/services/video_service.py:15-88). `videoBlob` and
      `thumbBlob` are what the storage returns for the two uploads, `newId`
      the key the row gets, and `commitOk` whether the storage's metadata
      carries the video properties and the store accepts the commit for
      reasons of its own. Both files are uploaded before the tags are
      looked up, and nothing deletes them when the lookup fails. */
  method UploadVideo(db: Database, storage: BlobStorage, files: UploadFiles,
                     videoTypes: set<string>, imageTypes: set<string>,
                     title: string, description: string, userId: Uuid, tags: set<Uuid>,
                     videoBlob: Blob, thumbBlob: Blob, newId: Uuid, commitOk: bool)
    returns (r: Outcome<Uuid>)
    requires db.Valid()
    requires newId !in db.videos
    requires videoBlob.fileId !in storage.live && thumbBlob.fileId !in storage.live
    requires videoBlob.fileId != thumbBlob.fileId
    modifies db, storage
    ensures db.Valid()
    ensures CheckUploadFiles(files, videoTypes, imageTypes).Some? ==>
      && r == ValueErr(CheckUploadFiles(files, videoTypes, imageTypes).value)
      && db.State() == old(db.State()) && storage.live == old(storage.live)
    ensures CheckUploadFiles(files, videoTypes, imageTypes).None? ==>
      && storage.live == old(storage.live) + {videoBlob.fileId, thumbBlob.fileId}
      && (!(tags <= old(db.tags).Keys) ==>
            r == ValueErr(TagsNotFound(tags - old(db.tags).Keys)) && db.State() == old(db.State()))
      && (tags <= old(db.tags).Keys && !(commitOk && userId in old(db.users)) ==>
            r == Raised && db.State() == old(db.State()))
      && (tags <= old(db.tags).Keys && commitOk && userId in old(db.users) ==>
            && r == Ok(newId)
            && db.State() == old(db.State()).(videos := old(db.videos)[newId :=
                 NewVideo(title, description, userId, videoBlob, thumbBlob, tags)]))
  {
    var rejection := CheckUploadFiles(files, videoTypes, imageTypes);
    if rejection.Some? {
      return ValueErr(rejection.value);
    }
    storage.Upload(videoBlob);
    storage.Upload(thumbBlob);
    var missing := tags - db.tags.Keys;
    if missing != {} {
      assert exists g :: g in tags && g !in db.tags.Keys;
      return ValueErr(TagsNotFound(missing));
    }
    assert tags <= db.tags.Keys by {
      forall g | g in tags
        ensures g in db.tags.Keys
      {
        assert g !in missing;
      }
    }
    var video := NewVideo(title, description, userId, videoBlob, thumbBlob, tags);
    if !commitOk || userId !in db.users {
      // a refused commit, or the owner's foreign key failing
      return Raised;
    }
    AddVideoKeepsConsistent(db.State(), newId, video);
    db.videos := db.videos[newId := video];
    r := Ok(newId);
  }

  /** A video after one read: its view count goes up by one. */
  function Viewed(v: Video): (r: Video)
    ensures r.views == v.views + 1
    ensures r == v.(views := r.views)
  {
    v.(views := v.views + 1)
  }

  /** A video after `n` reads. */
  function ViewedTimes(v: Video, n: nat): Video
    decreases n
  {
    if n == 0 then v else ViewedTimes(Viewed(v), n - 1)
  }

  /** `n` reads add exactly `n` views and change nothing else. */
  lemma {:induction false} ViewsAddUp(v: Video, n: nat)
    ensures ViewedTimes(v, n) == v.(views := v.views + n)
    decreases n
  {
    if n > 0 {
      ViewsAddUp(Viewed(v), n - 1);
    }
  }

  /** Counting a view keeps the store consistent. */
  lemma {:induction false} ViewKeepsConsistent(t: Tables, id: Uuid)
    requires Consistent(t) && id in t.videos
    ensures Consistent(t.(videos := t.videos[id := Viewed(t.videos[id])]))
  {
    var t' := t.(videos := t.videos[id := Viewed(t.videos[id])]);
    forall w | w in t'.videos
      ensures VideoRowConsistent(t', t'.videos[w])
    {
      assert VideoRowConsistent(t, t.videos[w]);
    }
  }

  /** `get_video_by_id` (app/services/video_service.py:117-139). Text that
      is not a UUID makes the query raise; a missing video gives `None`; a
      found video has its view counted and committed, and then building the
      response reads `video.duration`, which the model does not have, so the
      call raises after the commit. `commitOk` is whether that commit succeeds. */
  method GetVideoById(db: Database, id: PathId, commitOk: bool) returns (r: Outcome<Option<Video>>)
    requires db.Valid()
    modifies db
    ensures db.Valid()
    ensures r.Ok? <==> id.Parsed? && id.id !in old(db.videos)
    ensures r.Ok? ==> r.value == None
    ensures id.Parsed? && id.id in old(db.videos) && commitOk ==>
      db.State() == old(db.State()).(videos := old(db.videos)[id.id := Viewed(old(db.videos)[id.id])])
    ensures !(id.Parsed? && id.id in old(db.videos) && commitOk) ==> db.State() == old(db.State())
  {
    if id.Unparsable? {
      return Raised;
    }
    if id.id !in db.videos {
      return Ok(None);
    }
    if !commitOk {
      return Raised;
    }
    ViewKeepsConsistent(db.State(), id.id);
    db.videos := db.videos[id.id := Viewed(db.videos[id.id])];
    // the response reads the attribute `duration`, which Video does not declare
    r := Raised;
  }

  /** `video_exists` (app/services/video_service.py:141-149): text that is
      not a UUID is answered `False` without a query. */
  function VideoExists(videos: map<Uuid, Video>, id: PathId): (r: bool)
    ensures r <==> exists v :: id == Parsed(v) && v in videos
  {
    assert id.Parsed? ==> id == Parsed(id.id);
    id.Parsed? && id.id in videos
  }

  /** `check_eligibility` (app/services/video_service.py:152-158): whether the
      video belongs to the user. A missing video (or one whose id cannot be
      queried) makes the attribute access raise. */
  function CheckEligibility(videos: map<Uuid, Video>, userId: Uuid, contentId: PathId): (r: Outcome<bool>)
    ensures r.Raised? <==> !VideoExists(videos, contentId)
    ensures r.Ok? ==> (r.value <==> videos[contentId.id].owner == userId)
    ensures !r.ValueErr?
  {
    if contentId.Unparsable? || contentId.id !in videos then Raised
    else Ok(videos[contentId.id].owner == userId)
  }

  /** The tables after a video row is deleted: its comments go with it
      (`delete-orphan`), and so do its like, dislike and tag association
      rows, which here are fields of the row itself. */
  function WithoutVideo(t: Tables, id: Uuid): (r: Tables)
    ensures r.users == t.users && r.tags == t.tags
    ensures r.videos.Keys == t.videos.Keys - {id}
    ensures forall w :: w in r.videos ==> r.videos[w] == t.videos[w]
    ensures forall c :: c in r.comments <==> c in t.comments && t.comments[c].videoId != id
    ensures forall c :: c in r.comments ==> r.comments[c] == t.comments[c]
  {
    t.(videos := t.videos - {id},
       comments := map c | c in t.comments && t.comments[c].videoId != id :: t.comments[c])
  }

  /** Deleting a video keeps the store consistent: no comment is left
      pointing at it. */
  lemma {:induction false} DeleteVideoKeepsConsistent(t: Tables, id: Uuid)
    requires Consistent(t)
    ensures Consistent(WithoutVideo(t, id))
  {
    var r := WithoutVideo(t, id);
    forall w | w in r.videos
      ensures VideoRowConsistent(r, r.videos[w])
    {
      assert VideoRowConsistent(t, t.videos[w]);
    }
    forall c | c in r.comments
      ensures r.comments[c].videoId in r.videos && r.comments[c].userId in r.users
    {
      assert c in t.comments;
    }
  }

  /** `delete_content` (app/services/video_service.py:161-168): both files are
      deleted from storage and the row (with what cascades from it) is
      deleted; a missing video is left alone. `raised` is whether the
      query raises. */
  method DeleteContent(db: Database, storage: BlobStorage, contentId: PathId) returns (raised: bool)
    requires db.Valid()
    modifies db, storage
    ensures db.Valid()
    ensures raised <==> contentId.Unparsable?
    ensures VideoExists(old(db.videos), contentId) ==>
      && db.State() == WithoutVideo(old(db.State()), contentId.id)
      && storage.live == old(storage.live) - {old(db.videos)[contentId.id].src.fileId}
                                           - {old(db.videos)[contentId.id].thumbnail.fileId}
    ensures !VideoExists(old(db.videos), contentId) ==>
      db.State() == old(db.State()) && storage.live == old(storage.live)
  {
    if contentId.Unparsable? {
      return true;
    }
    if contentId.id !in db.videos {
      return false;
    }
    var content := db.videos[contentId.id];
    storage.DeleteFile(content.src.fileId);
    storage.DeleteFile(content.thumbnail.fileId);
    DeleteVideoKeepsConsistent(db.State(), contentId.id);
    var t := WithoutVideo(db.State(), contentId.id);
    db.videos, db.comments := t.videos, t.comments;
    raised := false;
  }
}
