/** The content handlers (app/routes/video_route.py): upload, read and
    delete a video. Results are HTTP status codes. */
module VideoRoute {
  import opened Domain
  import opened Store
  import opened Schemas
  import opened VideoService

  /** The tag ids of a form whose tags all parsed. */
  function ParsedIds(tags: seq<PathId>): (r: set<Uuid>)
    ensures forall i :: 0 <= i < |tags| && tags[i].Parsed? ==> tags[i].id in r
    ensures forall g :: g in r ==> exists i :: 0 <= i < |tags| && tags[i] == Parsed(g)
  {
    set i | 0 <= i < |tags| && tags[i].Parsed? :: tags[i].id
  }

  /** `upload_content` (app/routes/video_route.py:10-57). The form is
      validated first (400); a form without a description passes the schema
      but the handler then reads the missing key, which raises (500); the
      service's `ValueError`s are 400 and every other exception 500. */
  method UploadContent(db: Database, storage: BlobStorage, userId: Uuid, form: ContentForm,
                       files: UploadFiles, videoTypes: set<string>, imageTypes: set<string>,
                       videoBlob: Blob, thumbBlob: Blob, newId: Uuid, commitOk: bool)
    returns (code: nat)
    requires db.Valid()
    requires newId !in db.videos
    requires videoBlob.fileId !in storage.live && thumbBlob.fileId !in storage.live
    requires videoBlob.fileId != thumbBlob.fileId
    modifies db, storage
    ensures db.Valid()
    ensures code in {200, 400, 500}
    ensures code != 200 ==> db.State() == old(db.State())
    ensures !ValidContentForm(form) ==>
      code == 400 && storage.live == old(storage.live)
    ensures ValidContentForm(form) && form.description.None? ==>
      code == 500 && storage.live == old(storage.live)
    ensures ValidContentForm(form) && form.description.Some? ==>
      && (CheckUploadFiles(files, videoTypes, imageTypes).Some? ==>
            code == 400 && storage.live == old(storage.live))
      && (CheckUploadFiles(files, videoTypes, imageTypes).None? ==>
            && storage.live == old(storage.live) + {videoBlob.fileId, thumbBlob.fileId}
            && (!(ParsedIds(form.tags) <= old(db.tags).Keys) ==> code == 400)
            && (ParsedIds(form.tags) <= old(db.tags).Keys ==>
                  code == (if commitOk && userId in old(db.users) then 200 else 500))
            && (code == 200 ==>
                  db.State() == old(db.State()).(videos := old(db.videos)[newId :=
                    NewVideo(form.title.value, form.description.value, userId, videoBlob, thumbBlob,
                             ParsedIds(form.tags))])))
  {
    if !ValidContentForm(form) {
      return 400;
    }
    if form.description.None? {
      return 500;
    }
    var r := UploadVideo(db, storage, files, videoTypes, imageTypes, form.title.value,
                         form.description.value, userId, ParsedIds(form.tags),
                         videoBlob, thumbBlob, newId, commitOk);
    code := match r
      case Ok(_) => 200
      case ValueErr(_) => 400
      case Raised => 500;
  }

  /** `get_video` (app/routes/video_route.py:74-97): 404 for an id that is
      not a UUID or names no video; otherwise the service counts the view
      and then raises, so the answer is 500. */
  method GetVideo(db: Database, id: PathId, commitOk: bool) returns (code: nat)
    requires db.Valid()
    modifies db
    ensures db.Valid()
    ensures code == (if VideoExists(old(db.videos), id) then 500 else 404)
    ensures VideoExists(old(db.videos), id) && commitOk ==>
      db.State() == old(db.State()).(videos := old(db.videos)[id.id := Viewed(old(db.videos)[id.id])])
    ensures !(VideoExists(old(db.videos), id) && commitOk) ==> db.State() == old(db.State())
  {
    if !VideoExists(db.videos, id) {
      return 404;
    }
    var r := GetVideoById(db, id, commitOk);
    if r.Ok? {
      // the service never returns a found video
      assert false;
    }
    code := 500;
  }

  /** `delete_video` (app/routes/video_route.py:99-118): a missing video
      raises `NotFoundError` inside a block whose only handler catches every
      exception, so it answers 500; 403 when the caller does not own it,
      otherwise the content is deleted and the answer is 200. */
  method DeleteVideo(db: Database, storage: BlobStorage, userId: Uuid, id: PathId) returns (code: nat)
    requires db.Valid()
    modifies db, storage
    ensures db.Valid()
    ensures !VideoExists(old(db.videos), id) ==>
      code == 500 && db.State() == old(db.State()) && storage.live == old(storage.live)
    ensures VideoExists(old(db.videos), id) && old(db.videos)[id.id].owner != userId ==>
      code == 403 && db.State() == old(db.State()) && storage.live == old(storage.live)
    ensures VideoExists(old(db.videos), id) && old(db.videos)[id.id].owner == userId ==>
      && code == 200
      && db.State() == WithoutVideo(old(db.State()), id.id)
      && storage.live == old(storage.live) - {old(db.videos)[id.id].src.fileId}
                                           - {old(db.videos)[id.id].thumbnail.fileId}
  {
    if !VideoExists(db.videos, id) {
      return 500;
    }
    var eligible := CheckEligibility(db.videos, userId, id);
    if eligible != Ok(true) {
      return 403;
    }
    var raised := DeleteContent(db, storage, id);
    if raised {
      // an id that passed `video_exists` can be queried
      assert false;
    }
    code := 200;
  }
}
