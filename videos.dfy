/** The video handlers (src/controllers/video.controllers.js): the query that
    `getAllVideos` builds, and the handlers that read, publish, edit, delete
    and (un)publish a video. */
module Videos {

  import opened Common
  import opened Seqs
  import opened Store
  import opened Errors
  import opened Media

  // ---------------------------------------------------------------------------
  // getAllVideos: the `$match` stage, the `$sort` stage and the page options
  // ---------------------------------------------------------------------------

  /** Whether `sub` occurs in `s` as a contiguous piece. */
  predicate Contains(s: string, sub: string)
    decreases |s|
  {
    sub <= s || (s != [] && Contains(s[1..], sub))
  }

  /** Stand-in for `{$regex: query, $options: 'i'}`: the query occurs in the
      text, letters compared without regard to ASCII case. */
  predicate Matches(query: string, text: string) {
    Contains(ToLower(text), ToLower(query))
  }

  /** The `$match` stage: `isPublished` must equal `isPublished`; a search
      term, when present, must match the title or the description; an owner,
      when present, must own the video. */
  datatype MatchStage = MatchStage(isPublished: bool, search: Option<string>, owner: Option<Id>)

  /** The `$sort` stage: one field, -1 for descending and 1 for ascending. */
  datatype SortCriteria = SortCriteria(field: string, direction: int)

  datatype PageOptions = PageOptions(page: int, limit: int)

  /** Whether a video passes a `$match` stage. */
  predicate Selects(m: MatchStage, v: Video) {
    && v.isPublished == m.isPublished
    && (m.search.Some? ==> Matches(m.search.value, v.title) || Matches(m.search.value, v.description))
    && (m.owner.Some? ==> v.owner == m.owner.value)
  }

  /** The `$match` stage built from the request body: published videos only;
      a truthy `query` adds "title or description matches"; a truthy `userID`
      that `isValidObjectId` accepts adds "owned by" the ObjectId it casts to;
      any other `userID` is ignored. */
  function BuildMatch(query: Option<string>, userID: Option<string>): (m: MatchStage)
    ensures forall v :: Selects(m, v) <==>
              && v.isPublished
              && (Truthy(query) ==> Matches(query.value, v.title) || Matches(query.value, v.description))
              && (Truthy(userID) && IsObjectIdString(userID.value) ==> v.owner == Cast(userID.value))
    ensures m.owner.Some? <==> Truthy(userID) && IsObjectIdString(userID.value)
  {
    MatchStage(true,
               if Truthy(query) then Some(query.value) else None,
               if Truthy(userID) && IsObjectIdString(userID.value) then Some(Cast(userID.value)) else None)
  }

  /** The `$sort` stage: with both `sortBy` and `sortType`, sort on `sortBy`,
      descending exactly when `sortType` is 'desc'; otherwise newest first. */
  function BuildSort(sortBy: Option<string>, sortType: Option<string>): (c: SortCriteria)
    ensures c.direction == -1 || c.direction == 1
    ensures Truthy(sortBy) && Truthy(sortType) ==>
              c.field == sortBy.value && (c.direction == -1 <==> sortType.value == "desc")
    ensures !(Truthy(sortBy) && Truthy(sortType)) ==> c == SortCriteria("createdAt", -1)
  {
    if Truthy(sortBy) && Truthy(sortType) then
      SortCriteria(sortBy.value, if sortType.value == "desc" then -1 else 1)
    else
      SortCriteria("createdAt", -1)
  }

  /** `{page = 1, limit = 10}`: the page options, with their defaults. */
  function BuildPageOptions(page: Option<int>, limit: Option<int>): (p: PageOptions)
    ensures p.page == (if page.Some? then page.value else 1)
    ensures p.limit == (if limit.Some? then limit.value else 10)
  {
    PageOptions(if page.Some? then page.value else 1, if limit.Some? then limit.value else 10)
  }

  /** The videos the `$match` stage of a listing passes. */
  function Selected(videos: map<Id, Video>, m: MatchStage): (r: set<Video>)
    ensures forall v :: v in r <==> v in videos.Values && Selects(m, v)
  {
    set k | k in videos && Selects(m, videos[k]) :: videos[k]
  }

  /** No listing ever shows an unpublished video, whatever the request. */
  lemma UnpublishedNeverListed(videos: map<Id, Video>, query: Option<string>, userID: Option<string>)
    ensures forall v :: v in Selected(videos, BuildMatch(query, userID)) ==> v.isPublished
  {
  }

  /** The listing without search or owner filter shows every published video. */
  lemma PlainListingShowsAllPublished(videos: map<Id, Video>, userID: Option<string>)
    requires !Truthy(userID)
    ensures forall v :: v in Selected(videos, BuildMatch(None, userID)) <==> v in videos.Values && v.isPublished
  {
  }

  // ---------------------------------------------------------------------------
  // Checking upload results
  // ---------------------------------------------------------------------------

  /** An upload the handler may use: the host answered with a non-empty url. */
  predicate HasUrl(u: Upload) {
    u.Uploaded? && u.url != ""
  }

  /** The url check as written (`!videoFile.url`, `!thumbnail.url`): a `null`
      upload result makes the property read itself throw a TypeError, which the
      error middleware answers with 400; an empty url gives the intended 500. */
  function UrlCheckAsWritten(u: Upload, message: string): (r: Option<Response<Video>>)
    requires !u.Threw?
    ensures r.None? <==> HasUrl(u)
    ensures u.NoResult? ==> r == Some(Thrown(NullUrlRead)) && r.value.status == 400
    ensures u.Uploaded? && u.url == "" ==> r == Some(Error(500, message))
  {
    match u
    case NoResult => Some(Thrown(NullUrlRead))
    case Uploaded(url, _, _) => if url == "" then Some(Error(500, message)) else None
  }

  /** The url check as intended: any upload that yields no url is a 500 with
      the handler's own message. */
  function UrlCheck(u: Upload, message: string): (r: Option<Response<Video>>)
    ensures r.None? <==> HasUrl(u)
    ensures r.Some? ==> r.value == Error(500, message)
  {
    if HasUrl(u) then None else Some(Error(500, message))
  }

  /** The two checks part exactly on a `null` upload result, which the code as
      written answers with 400 instead of 500. */
  lemma UrlCheckDiffersOnlyOnNull(u: Upload, message: string)
    requires !u.Threw?
    ensures UrlCheckAsWritten(u, message) != UrlCheck(u, message) <==> u.NoResult?
    ensures u.NoResult? ==> UrlCheckAsWritten(u, message).value.status == 400
                            && UrlCheck(u, message).value.status == 500
  {
  }

  // ---------------------------------------------------------------------------
  // Handlers
  // ---------------------------------------------------------------------------

  /** A video with its `isPublished` flag negated and every other field kept. */
  function Flipped(v: Video): (w: Video)
    ensures w.isPublished == !v.isPublished
    ensures w.(isPublished := v.isPublished) == v
  {
    v.(isPublished := !v.isPublished)
  }

  /** getVideoById: 400 for a malformed id, 404 for a missing video; otherwise
      the video as it was fetched, its view count raised by one afterwards, and
      the video added once to a logged-in viewer's watch history. */
  method GetVideoById(db: Database, viewer: Option<Id>, videoId: Id) returns (r: Response<Video>)
    requires db.Valid()
    modifies db`videos, db`users
    ensures db.Valid()
    ensures !ValidId(videoId) ==> r == Error(400, "Invalid video ID")
    ensures ValidId(videoId) && videoId !in old(db.videos) ==> r == Error(404, "Video not found")
    ensures r.Error? ==> db.videos == old(db.videos) && db.users == old(db.users)
    ensures r.Ok? <==> ValidId(videoId) && videoId in old(db.videos)
    ensures r.Ok? ==>
              var v := old(db.videos)[videoId];
              && r == Ok(200, v)
              && db.videos == old(db.videos)[videoId := v.(views := v.views + 1)]
    ensures r.Ok? && viewer.Some? && viewer.value in old(db.users) ==>
              var u := old(db.users)[viewer.value];
              db.users == old(db.users)[viewer.value := u.(watchHistory := AppendIfAbsent(u.watchHistory, videoId))]
    ensures viewer.None? || viewer.value !in old(db.users) ==> db.users == old(db.users)
  {
    if !ValidId(videoId) {
      return Error(400, "Invalid video ID");
    }
    if videoId !in db.videos {
      return Error(404, "Video not found");
    }
    var video := db.videos[videoId];
    db.videos := db.videos[videoId := video.(views := video.views + 1)];
    if viewer.Some? && viewer.value in db.users {
      var u := db.users[viewer.value];
      var u' := u.(watchHistory := AppendIfAbsent(u.watchHistory, videoId));
      WatchKeepsUsersOk(db.users, viewer.value, videoId);
      db.users := db.users[viewer.value := u'];
    }
    r := Ok(200, video);
  }

  /** Adding to one user's watch history keeps the users collection consistent. */
  lemma {:induction false} WatchKeepsUsersOk(users: map<Id, User>, who: Id, videoId: Id)
    requires UsersOk(users) && who in users
    ensures var u := users[who];
            UsersOk(users[who := u.(watchHistory := AppendIfAbsent(u.watchHistory, videoId))])
  {
    var u := users[who];
    var m := users[who := u.(watchHistory := AppendIfAbsent(u.watchHistory, videoId))];
    forall k, k' | k in m && k' in m && k != k'
      ensures m[k].username != m[k'].username && m[k].email != m[k'].email
    {
      assert m[k].username == users[k].username && m[k].email == users[k].email;
      assert m[k'].username == users[k'].username && m[k'].email == users[k'].email;
    }
  }

  /** publishAVideo: title and description (400), both files (400), both
      uploads; the new video is owned by the requester, unpublished and unseen. */
  method PublishAVideo(db: Database, me: Id, title: Option<string>, description: Option<string>,
                       hasVideoFile: bool, hasThumbnail: bool,
                       videoUpload: Upload, thumbnailUpload: Upload,
                       newId: Id, now: int) returns (r: Response<Video>)
    requires db.Valid() && newId !in db.videos
    modifies db`videos
    ensures db.Valid()
    ensures !Truthy(title) || !Truthy(description) ==> r == Error(400, "All fields are required")
    ensures Truthy(title) && Truthy(description) && (!hasVideoFile || !hasThumbnail) ==>
              r == Error(400, "Video file and thumbnail are required")
    ensures Truthy(title) && Truthy(description) && hasVideoFile && hasThumbnail && videoUpload.Threw? ==>
              r == Thrown(videoUpload.error)
    ensures Truthy(title) && Truthy(description) && hasVideoFile && hasThumbnail && !videoUpload.Threw?
            && thumbnailUpload.Threw? ==>
              r == Thrown(thumbnailUpload.error)
    ensures Truthy(title) && Truthy(description) && hasVideoFile && hasThumbnail
            && !videoUpload.Threw? && !thumbnailUpload.Threw?
            && !(HasUrl(videoUpload) && HasUrl(thumbnailUpload)) ==>
              r == Error(500, "Failed to upload video file or thumbnail")
    ensures r.Error? ==> db.videos == old(db.videos)
    ensures r.Ok? <==> Truthy(title) && Truthy(description) && hasVideoFile && hasThumbnail
                       && HasUrl(videoUpload) && HasUrl(thumbnailUpload)
    ensures r.Ok? ==>
              && r.code == 200
              && r.value == Video(newId, title.value, description.value, videoUpload.url,
                                  thumbnailUpload.url, videoUpload.duration, 0, false, me, now)
              && db.videos == old(db.videos)[newId := r.value]
  {
    if !Truthy(title) || !Truthy(description) {
      return Error(400, "All fields are required");
    }
    if !hasVideoFile || !hasThumbnail {
      return Error(400, "Video file and thumbnail are required");
    }
    if videoUpload.Threw? {
      return Thrown(videoUpload.error);
    }
    if thumbnailUpload.Threw? {
      return Thrown(thumbnailUpload.error);
    }
    var problem := UrlCheck(videoUpload, "Failed to upload video file or thumbnail");
    if problem.None? {
      problem := UrlCheck(thumbnailUpload, "Failed to upload video file or thumbnail");
    }
    if problem.Some? {
      return problem.value;
    }
    var video := Video(newId, title.value, description.value, videoUpload.url, thumbnailUpload.url,
                       videoUpload.duration, 0, false, me, now);
    db.videos := db.videos[newId := video];
    r := Ok(200, video);
  }

  /** updateVideo: malformed id (400), missing title or description (400),
      missing video (404), not the owner (403), a thumbnail upload that yields
      no url (500); otherwise title and description are replaced and the
      thumbnail only when a new one was uploaded. */
  method UpdateVideo(db: Database, me: Id, videoId: Id, title: Option<string>, description: Option<string>,
                     hasThumbnail: bool, thumbnailUpload: Upload) returns (r: Response<Video>)
    requires db.Valid()
    modifies db`videos
    ensures db.Valid()
    ensures !ValidId(videoId) ==> r == Error(400, "Invalid video ID")
    ensures ValidId(videoId) && (!Truthy(title) || !Truthy(description)) ==>
              r == Error(400, "All fields are required")
    ensures ValidId(videoId) && Truthy(title) && Truthy(description) && videoId !in old(db.videos) ==>
              r == Error(404, "Video not found")
    ensures ValidId(videoId) && Truthy(title) && Truthy(description) && videoId in old(db.videos)
            && old(db.videos)[videoId].owner != me ==>
              r == Error(403, "You are not authorized to update this video")
    ensures ValidId(videoId) && Truthy(title) && Truthy(description) && videoId in old(db.videos)
            && old(db.videos)[videoId].owner == me && hasThumbnail && thumbnailUpload.Threw? ==>
              r == Thrown(thumbnailUpload.error)
    ensures ValidId(videoId) && Truthy(title) && Truthy(description) && videoId in old(db.videos)
            && old(db.videos)[videoId].owner == me && hasThumbnail && !thumbnailUpload.Threw?
            && !HasUrl(thumbnailUpload) ==>
              r == Error(500, "Failed to upload thumbnail")
    ensures r.Error? ==> db.videos == old(db.videos)
    ensures r.Ok? <==> && ValidId(videoId) && Truthy(title) && Truthy(description)
                       && videoId in old(db.videos) && old(db.videos)[videoId].owner == me
                       && (hasThumbnail ==> HasUrl(thumbnailUpload))
    ensures r.Ok? ==>
              var v := old(db.videos)[videoId];
              var thumbnail := if hasThumbnail then thumbnailUpload.url else v.thumbnail;
              && r == Ok(200, v.(title := title.value, description := description.value, thumbnail := thumbnail))
              && db.videos == old(db.videos)[videoId := r.value]
  {
    if !ValidId(videoId) {
      return Error(400, "Invalid video ID");
    }
    if !Truthy(title) || !Truthy(description) {
      return Error(400, "All fields are required");
    }
    if videoId !in db.videos {
      return Error(404, "Video not found");
    }
    var video := db.videos[videoId];
    if video.owner != me {
      return Error(403, "You are not authorized to update this video");
    }
    var thumbnail := video.thumbnail;
    if hasThumbnail {
      if thumbnailUpload.Threw? {
        return Thrown(thumbnailUpload.error);
      }
      var problem := UrlCheck(thumbnailUpload, "Failed to upload thumbnail");
      if problem.Some? {
        return problem.value;
      }
      thumbnail := thumbnailUpload.url;
    }
    video := video.(title := title.value, description := description.value, thumbnail := thumbnail);
    db.videos := db.videos[videoId := video];
    r := Ok(200, video);
  }

  /** deleteVideo: after the guards, exactly the target video is gone; its
      comments and likes stay (there is no cascade). */
  method DeleteVideo(db: Database, me: Id, videoId: Id) returns (r: Response<()>)
    requires db.Valid()
    modifies db`videos
    ensures db.Valid()
    ensures !ValidId(videoId) ==> r == Error(400, "Invalid video ID")
    ensures ValidId(videoId) && videoId !in old(db.videos) ==> r == Error(404, "Video not found")
    ensures ValidId(videoId) && videoId in old(db.videos) && old(db.videos)[videoId].owner != me ==>
              r == Error(403, "You are not authorized to delete this video")
    ensures r.Error? ==> db.videos == old(db.videos)
    ensures r.Ok? <==> ValidId(videoId) && videoId in old(db.videos) && old(db.videos)[videoId].owner == me
    ensures r.Ok? ==> r.code == 200 && db.videos == old(db.videos) - {videoId}
  {
    if !ValidId(videoId) {
      return Error(400, "Invalid video ID");
    }
    if videoId !in db.videos {
      return Error(404, "Video not found");
    }
    if db.videos[videoId].owner != me {
      return Error(403, "You are not authorized to delete this video");
    }
    db.videos := db.videos - {videoId};
    r := Ok(200, ());
  }

  /** togglePublishVideo: after the guards, `isPublished` is negated and
      nothing else changes. */
  method TogglePublishVideo(db: Database, me: Id, videoId: Id) returns (r: Response<Video>)
    requires db.Valid()
    modifies db`videos
    ensures db.Valid()
    ensures !ValidId(videoId) ==> r == Error(400, "Invalid video ID")
    ensures ValidId(videoId) && videoId !in old(db.videos) ==> r == Error(404, "Video not found")
    ensures ValidId(videoId) && videoId in old(db.videos) && old(db.videos)[videoId].owner != me ==>
              r == Error(403, "You are not authorized to publish this video")
    ensures r.Error? ==> db.videos == old(db.videos)
    ensures r.Ok? <==> ValidId(videoId) && videoId in old(db.videos) && old(db.videos)[videoId].owner == me
    ensures r.Ok? ==> r == Ok(200, Flipped(old(db.videos)[videoId]))
                      && db.videos == old(db.videos)[videoId := r.value]
  {
    if !ValidId(videoId) {
      return Error(400, "Invalid video ID");
    }
    if videoId !in db.videos {
      return Error(404, "Video not found");
    }
    var video := db.videos[videoId];
    if video.owner != me {
      return Error(403, "You are not authorized to publish this video");
    }
    video := Flipped(video);
    db.videos := db.videos[videoId := video];
    r := Ok(200, video);
  }

  /** Two toggles restore the video collection exactly. */
  lemma ToggleTwiceRestores(videos: map<Id, Video>, videoId: Id)
    requires videoId in videos
    ensures var once := videos[videoId := Flipped(videos[videoId])];
            once[videoId := Flipped(once[videoId])] == videos
  {
    var once := videos[videoId := Flipped(videos[videoId])];
    assert Flipped(once[videoId]) == videos[videoId];
  }
}
