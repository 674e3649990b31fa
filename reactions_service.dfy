/** `ReactionsService` (app/services/reactions_service.py): the like/dislike
    toggle state machine per (user, video) and its read. */
module ReactionsService {
  import opened Domain
  import opened Store

  /** A video after `user` toggles a like: an existing like is withdrawn
      (the dislike set is left alone); otherwise a dislike is withdrawn and
      a like added. */
  function LikeToggled(v: Video, user: Uuid): (r: Video)
    ensures user in r.likedBy <==> user !in v.likedBy
    ensures user !in r.likedBy || user !in r.dislikedBy
    ensures user in v.likedBy ==> r.dislikedBy == v.dislikedBy
    ensures user !in v.likedBy ==> user !in r.dislikedBy
    ensures forall w :: w != user ==> (w in r.likedBy <==> w in v.likedBy) && (w in r.dislikedBy <==> w in v.dislikedBy)
    ensures r == v.(likedBy := r.likedBy, dislikedBy := r.dislikedBy)
  {
    if user in v.likedBy then
      v.(likedBy := v.likedBy - {user})
    else
      v.(likedBy := v.likedBy + {user}, dislikedBy := v.dislikedBy - {user})
  }

  /** A video after `user` toggles a dislike: the mirror image of `LikeToggled`. */
  function DislikeToggled(v: Video, user: Uuid): (r: Video)
    ensures user in r.dislikedBy <==> user !in v.dislikedBy
    ensures user !in r.likedBy || user !in r.dislikedBy
    ensures user in v.dislikedBy ==> r.likedBy == v.likedBy
    ensures user !in v.dislikedBy ==> user !in r.likedBy
    ensures forall w :: w != user ==> (w in r.likedBy <==> w in v.likedBy) && (w in r.dislikedBy <==> w in v.dislikedBy)
    ensures r == v.(likedBy := r.likedBy, dislikedBy := r.dislikedBy)
  {
    if user in v.dislikedBy then
      v.(dislikedBy := v.dislikedBy - {user})
    else
      v.(dislikedBy := v.dislikedBy + {user}, likedBy := v.likedBy - {user})
  }

  /** The video with its two reaction sets exchanged. */
  function Swapped(v: Video): Video
  {
    v.(likedBy := v.dislikedBy, dislikedBy := v.likedBy)
  }

  /** `toggle_dislike` is `toggle_like` with the roles of the sets swapped. */
  lemma DislikeMirrorsLike(v: Video, user: Uuid)
    ensures DislikeToggled(v, user) == Swapped(LikeToggled(Swapped(v), user))
  {
  }

  /** Toggling a like twice restores the user's like; from a dislike (and
      no like) the user ends with neither. */
  lemma DoubleLikeToggle(v: Video, user: Uuid)
    ensures var r := LikeToggled(LikeToggled(v, user), user);
      && (user in r.likedBy <==> user in v.likedBy)
      && (user in v.dislikedBy && user !in v.likedBy ==> user !in r.likedBy && user !in r.dislikedBy)
      && (forall w :: w != user ==> (w in r.likedBy <==> w in v.likedBy) && (w in r.dislikedBy <==> w in v.dislikedBy))
  {
  }

  /** How one toggle moves the two counts the read reports. */
  lemma {:induction false} LikeToggleCounts(v: Video, user: Uuid)
    requires ReactionsExclusive(v)
    ensures var r := LikeToggled(v, user);
      if user in v.likedBy then
        |r.likedBy| == |v.likedBy| - 1 && |r.dislikedBy| == |v.dislikedBy|
      else
        |r.likedBy| == |v.likedBy| + 1 &&
        |r.dislikedBy| == if user in v.dislikedBy then |v.dislikedBy| - 1 else |v.dislikedBy|
  {
    var r := LikeToggled(v, user);
    if user in v.likedBy {
      assert v.likedBy == r.likedBy + {user};
    } else {
      assert r.likedBy == v.likedBy + {user};
      if user in v.dislikedBy {
        assert v.dislikedBy == r.dislikedBy + {user};
      } else {
        assert r.dislikedBy == v.dislikedBy;
      }
    }
  }

  /** One click of the like or dislike button by a user. */
  datatype Click = Like(user: Uuid) | Dislike(user: Uuid)

  function Clicked(v: Video, c: Click): Video
  {
    match c
    case Like(u) => LikeToggled(v, u)
    case Dislike(u) => DislikeToggled(v, u)
  }

  /** A video after a sequence of clicks, applied in order. */
  function AfterClicks(v: Video, clicks: seq<Click>): Video
    decreases |clicks|
  {
    if clicks == [] then v else AfterClicks(Clicked(v, clicks[0]), clicks[1..])
  }

  /** Exclusion survives any sequence of toggles. */
  lemma {:induction false} ClicksKeepExclusive(v: Video, clicks: seq<Click>)
    requires ReactionsExclusive(v)
    ensures ReactionsExclusive(AfterClicks(v, clicks))
    ensures AfterClicks(v, clicks) == v.(likedBy := AfterClicks(v, clicks).likedBy, dislikedBy := AfterClicks(v, clicks).dislikedBy)
    decreases |clicks|
  {
    if clicks != [] {
      var next := Clicked(v, clicks[0]);
      assert ReactionsExclusive(next) by {
        forall w | w in next.likedBy
          ensures w !in next.dislikedBy
        {
        }
      }
      ClicksKeepExclusive(next, clicks[1..]);
    }
  }

  /** What `toggle_like` and `toggle_dislike` return. */
  datatype ToggleResult =
    | Toggled(on: bool)   // "liked" or "disliked" in the response
    | NotFound            // "Video or user not found"
    | StoreError          // "An error occurred" after a rollback

  /** `toggle_like` (app/services/reactions_service.py:8-39). `commitOk` says
      whether the store accepts the commit; a refused commit is rolled back. */
  method ToggleLike(db: Database, videoId: Uuid, userId: Uuid, commitOk: bool) returns (r: ToggleResult)
    requires db.Valid()
    modifies db
    ensures db.Valid()
    ensures videoId !in old(db.videos) || userId !in old(db.users) ==>
      r == NotFound && db.State() == old(db.State())
    ensures videoId in old(db.videos) && userId in old(db.users) && !commitOk ==>
      r == StoreError && db.State() == old(db.State())
    ensures videoId in old(db.videos) && userId in old(db.users) && commitOk ==>
      && r == Toggled(userId !in old(db.videos)[videoId].likedBy)
      && db.State() == old(db.State()).(videos := old(db.videos)[videoId := LikeToggled(old(db.videos)[videoId], userId)])
  {
    if videoId !in db.videos || userId !in db.users {
      return NotFound;
    }
    var video := db.videos[videoId];
    if userId in video.likedBy {
      video := video.(likedBy := video.likedBy - {userId});
      if !commitOk {
        return StoreError;
      }
      db.videos := db.videos[videoId := video];
      return Toggled(false);
    }
    if userId in video.dislikedBy {
      video := video.(dislikedBy := video.dislikedBy - {userId});
    }
    video := video.(likedBy := video.likedBy + {userId});
    assert video == LikeToggled(db.videos[videoId], userId);
    if !commitOk {
      return StoreError;
    }
    db.videos := db.videos[videoId := video];
    r := Toggled(true);
  }

  /** `toggle_dislike` (app/services/reactions_service.py:42-73). */
  method ToggleDislike(db: Database, videoId: Uuid, userId: Uuid, commitOk: bool) returns (r: ToggleResult)
    requires db.Valid()
    modifies db
    ensures db.Valid()
    ensures videoId !in old(db.videos) || userId !in old(db.users) ==>
      r == NotFound && db.State() == old(db.State())
    ensures videoId in old(db.videos) && userId in old(db.users) && !commitOk ==>
      r == StoreError && db.State() == old(db.State())
    ensures videoId in old(db.videos) && userId in old(db.users) && commitOk ==>
      && r == Toggled(userId !in old(db.videos)[videoId].dislikedBy)
      && db.State() == old(db.State()).(videos := old(db.videos)[videoId := DislikeToggled(old(db.videos)[videoId], userId)])
  {
    if videoId !in db.videos || userId !in db.users {
      return NotFound;
    }
    var video := db.videos[videoId];
    if userId in video.dislikedBy {
      video := video.(dislikedBy := video.dislikedBy - {userId});
      if !commitOk {
        return StoreError;
      }
      db.videos := db.videos[videoId := video];
      return Toggled(false);
    }
    if userId in video.likedBy {
      video := video.(likedBy := video.likedBy - {userId});
    }
    video := video.(dislikedBy := video.dislikedBy + {userId});
    assert video == DislikeToggled(db.videos[videoId], userId);
    if !commitOk {
      return StoreError;
    }
    db.videos := db.videos[videoId := video];
    r := Toggled(true);
  }

  /** The counts and flags `get_liked_and_disliked_users` reports. */
  datatype ReactionSummary = ReactionSummary(
    likedUsersCount: nat,
    dislikedUsersCount: nat,
    userHasLiked: bool,
    userHasDisliked: bool)

  /** `get_liked_and_disliked_users` (app/services/reactions_service.py:76-103):
      `None` stands for "Video not found". */
  function GetLikedAndDislikedUsers(videos: map<Uuid, Video>, videoId: Uuid, userId: Option<Uuid>): (r: Option<ReactionSummary>)
    ensures r.None? <==> videoId !in videos
    ensures r.Some? ==>
      && r.value.likedUsersCount == |videos[videoId].likedBy|
      && r.value.dislikedUsersCount == |videos[videoId].dislikedBy|
    ensures r.Some? && userId.None? ==> !r.value.userHasLiked && !r.value.userHasDisliked
    ensures r.Some? && userId.Some? ==>
      && (r.value.userHasLiked <==> userId.value in videos[videoId].likedBy)
      && (r.value.userHasDisliked <==> userId.value in videos[videoId].dislikedBy)
    ensures r.Some? && videoId in videos && ReactionsExclusive(videos[videoId]) ==>
      !(r.value.userHasLiked && r.value.userHasDisliked)
  {
    if videoId !in videos then None
    else
      var v := videos[videoId];
      var liked := userId.Some? && exists u | u in v.likedBy :: u == userId.value;
      var disliked := userId.Some? && exists u | u in v.dislikedBy :: u == userId.value;
      Some(ReactionSummary(|v.likedBy|, |v.dislikedBy|, liked, disliked))
  }

  /** The scenario of a video nobody has reacted to: U likes (1, 0, liked),
      U dislikes (0, 1), U dislikes again (0, 0). */
  lemma ReactionScenario(videos: map<Uuid, Video>, vid: Uuid, u: Uuid)
    requires vid in videos && videos[vid].likedBy == {} && videos[vid].dislikedBy == {}
    ensures var s1 := videos[vid := LikeToggled(videos[vid], u)];
      && GetLikedAndDislikedUsers(s1, vid, Some(u)) == Some(ReactionSummary(1, 0, true, false))
      && var s2 := s1[vid := DislikeToggled(s1[vid], u)];
      && GetLikedAndDislikedUsers(s2, vid, Some(u)) == Some(ReactionSummary(0, 1, false, true))
      && var s3 := s2[vid := DislikeToggled(s2[vid], u)];
      GetLikedAndDislikedUsers(s3, vid, Some(u)) == Some(ReactionSummary(0, 0, false, false))
  {
    var v := videos[vid];
    assert LikeToggled(v, u).likedBy == {u};
    assert DislikeToggled(LikeToggled(v, u), u).dislikedBy == {u};
    assert DislikeToggled(LikeToggled(v, u), u).likedBy == {};
  }
}
