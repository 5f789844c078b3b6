/** The video handlers. `getAllVideos` runs an aggregation pipeline: match the
    requester's videos, join each with its owner, project a fixed set of
    fields, sort, skip and limit. */
module VideoController {
  import opened Common
  import opened JsStrings
  import opened ApiErrors
  import opened AsyncHandler
  import opened Ordering
  import opened Paging
  import opened FieldPaths
  import opened Store
  import opened UserModel
  import opened VideoModel

  /** Reading `req.user._id` on a route without the authentication
      middleware, where `req.user` is undefined. */
  const NoUser: JsError := TypeError("Cannot read properties of undefined (reading '_id')")

  /** The owner as the `$project` stage shapes it. */
  datatype OwnerView = OwnerView(id: Id, username: Option<string>, fullname: Option<string>, avatar: Option<string>)

  /** A video as the `$project` stage shapes it: `_id` is kept, `createdAt`
      and `updatedAt` are not. */
  datatype ProjectedVideo = ProjectedVideo(
    id: Id,
    videoFile: Option<string>,
    thumbnail: Option<string>,
    title: Option<string>,
    description: Option<string>,
    duration: Option<int>,
    views: int,
    isPublished: bool,
    owner: OwnerView)

  function Project(v: Doc<Video>, u: Doc<User>): ProjectedVideo
  {
    ProjectedVideo(v.id, v.data.videoFile, v.data.thumbnail, v.data.title, v.data.description,
                   v.data.duration, v.data.views, v.data.isPublished,
                   OwnerView(u.id, u.data.username, u.data.fullname, u.data.avatar))
  }

  /** The `$match: { owner }` stage. */
  function VideoOwnedBy(owner: Id): Doc<Video> -> bool
  {
    (d: Doc<Video>) => d.data.owner == Some(owner)
  }

  /** `$lookup` of the owner in `users`, `$unwind` (which drops a video
      whose owner is not found) and `$project`. */
  function Joined(vs: seq<Doc<Video>>, users: seq<Doc<User>>): (r: seq<ProjectedVideo>)
    ensures |r| <= |vs|
  {
    if |vs| == 0 then []
    else
      var rest := Joined(vs[1..], users);
      match vs[0].data.owner
      case None => rest
      case Some(o) =>
        match FindById(users, o)
        case None => rest
        case Some(k) => [Project(vs[0], users[k])] + rest
  }

  /** The matched videos all have the requester as owner, so the join keeps
      all of them, each with the requester's user, or none when the
      requester's user is gone. */
  lemma {:induction false} JoinedOwnVideos(vs: seq<Doc<Video>>, users: seq<Doc<User>>, me: Id)
    requires forall i :: 0 <= i < |vs| ==> vs[i].data.owner == Some(me)
    ensures FindById(users, me).None? ==> Joined(vs, users) == []
    ensures FindById(users, me).Some? ==>
      var u := users[FindById(users, me).value];
      |Joined(vs, users)| == |vs| && forall i :: 0 <= i < |vs| ==> Joined(vs, users)[i] == Project(vs[i], u)
  {
    if |vs| > 0 {
      JoinedOwnVideos(vs[1..], users, me);
    }
  }

  /** The sort field, `sortBy || 'createdAt'`. */
  function SortField(sortBy: Option<string>): string
  {
    if Truthy(sortBy) then sortBy.value else "createdAt"
  }

  /** The server's refusal of the `$sort` stage's field path, which is the
      raw `sortBy` when it is truthy. */
  function SortFieldError(sortBy: Option<string>): Option<JsError>
  {
    FieldPathError(SortField(sortBy))
  }

  function TextKey(f: Option<string>): SortKey
  {
    if f.None? then Missing else Text(f.value)
  }

  /** The value a projected video holds at a field path. `owner` is a
      sub-document; every matched video has the same owner, so its value is
      taken as the owner's id. Any other path, `createdAt` included, is
      missing after the projection. */
  function FieldValue(v: ProjectedVideo, field: string): SortKey
  {
    if field == "_id" then ObjectId(v.id)
    else if field == "videoFile" then TextKey(v.videoFile)
    else if field == "thumbnail" then TextKey(v.thumbnail)
    else if field == "title" then TextKey(v.title)
    else if field == "description" then TextKey(v.description)
    else if field == "duration" then (if v.duration.None? then Missing else Number(v.duration.value))
    else if field == "views" then Number(v.views)
    else if field == "isPublished" then Flag(v.isPublished)
    else if field == "owner" || field == "owner._id" then ObjectId(v.owner.id)
    else if field == "owner.username" then TextKey(v.owner.username)
    else if field == "owner.fullname" then TextKey(v.owner.fullname)
    else if field == "owner.avatar" then TextKey(v.owner.avatar)
    else Missing
  }

  function FieldKey(field: string): ProjectedVideo -> SortKey
  {
    (v: ProjectedVideo) => FieldValue(v, field)
  }

  /** The pipeline up to the `$sort` stage. */
  function Listed(videos: seq<Doc<Video>>, users: seq<Doc<User>>, me: Id, sortBy: Option<string>, sortType: Option<string>)
    : (r: seq<ProjectedVideo>)
    ensures multiset(r) == multiset(Joined(Select(videos, VideoOwnedBy(me)), users))
    ensures SortedBy(r, FieldKey(SortField(sortBy)), sortType == Some("desc"))
  {
    SortBy(Joined(Select(videos, VideoOwnedBy(me)), users), FieldKey(SortField(sortBy)), sortType == Some("desc"))
  }

  /** `(page - 1) * limit`, where both are converted with `Number`. */
  function SkipOf(page: Option<string>, limit: Option<string>): Option<int>
  {
    var p := QueryNumber(page, 1);
    var l := QueryNumber(limit, 10);
    if p.None? || l.None? then None else Some((p.value - 1) * l.value)
  }

  /** The database refuses a skip that is NaN or negative and a limit that is
      NaN or not positive. */
  predicate StagesRefused(page: Option<string>, limit: Option<string>)
  {
    var skip := SkipOf(page, limit);
    var l := QueryInt(limit, 10);
    skip.None? || skip.value < 0 || l.None? || l.value <= 0
  }

  /** `getAllVideos`. `me` is `req.user._id`, absent when no user was
      attached to the request. */
  function GetAllVideos(videos: seq<Doc<Video>>, users: seq<Doc<User>>, me: Option<Id>,
                        page: Option<string>, limit: Option<string>, sortBy: Option<string>, sortType: Option<string>)
    : (r: Completion<seq<ProjectedVideo>>)
    ensures me.None? ==> r == Threw(NoUser)
    ensures me.Some? && SortFieldError(sortBy).Some? ==> r == Threw(SortFieldError(sortBy).value)
    ensures me.Some? && SortFieldError(sortBy).None? && StagesRefused(page, limit) ==>
      r == Threw(MongoError(BadValue, BadValueMessage))
    ensures me.Some? && SortFieldError(sortBy).None? && !StagesRefused(page, limit) ==>
      var all := Listed(videos, users, me.value, sortBy, sortType);
      var skip := SkipOf(page, limit).value;
      && (skip >= |all| <==> r == Threw(Api(404, "No videos found")))
      && (r.Wrote? ==>
            && r.status == 200
            && 0 < |r.data| <= QueryInt(limit, 10).value
            && skip + |r.data| <= |all|
            && (forall i :: 0 <= i < |r.data| ==> r.data[i] == all[skip + i])
            && (|r.data| < QueryInt(limit, 10).value ==> skip + |r.data| == |all|))
  {
    if me.None? then Threw(NoUser)
    else if SortFieldError(sortBy).Some? then Threw(SortFieldError(sortBy).value)
    else if StagesRefused(page, limit) then Threw(MongoError(BadValue, BadValueMessage))
    else
      var all := Listed(videos, users, me.value, sortBy, sortType);
      var onPage := Limit(Skip(all, SkipOf(page, limit).value), QueryInt(limit, 10).value);
      if |onPage| == 0 then Threw(Api(404, "No videos found"))
      else Wrote(200, onPage)
  }

  /** A `sortBy` the server refuses as a field path leaves the client without
      any reply: the refusal's code is no HTTP status. */
  lemma RefusedSortFieldNoReply(videos: seq<Doc<Video>>, users: seq<Doc<User>>, me: Id,
                                page: Option<string>, limit: Option<string>, sortBy: Option<string>, sortType: Option<string>)
    requires SortFieldError(sortBy).Some?
    ensures Wrap(GetAllVideos(videos, users, Some(me), page, limit, sortBy, sortType)) == NoReply
  {
  }

  /** Among them: a field starting with `$` (other than a DBRef name), a
      trailing dot, and two dots in a row. A nested field whose two pieces
      pass is accepted. */
  lemma SortFieldsRefusedAndAccepted(p: string, q: string)
    requires '.' !in p && '.' !in q
    ensures p != "" && p[0] == '$' && p !in {"$id", "$ref", "$db"} ==> SortFieldError(Some(p)).Some?
    ensures SortFieldError(Some(p + ".")).Some?
    ensures SortFieldError(Some(p + ".." + q)).Some?
    ensures PieceError(p).None? && PieceError(q).None? ==> SortFieldError(Some(p + "." + q)).None?
  {
    RefusedPaths(p, q);
    TwoPieces(p, q);
  }

  /** The default field is accepted. */
  lemma DefaultSortFieldAccepted()
    ensures SortFieldError(None).None?
  {
    OnePiece(SortField(None));
  }

  /** The default sort is on `createdAt`, which the projection has removed:
      every key is missing, and the videos stay in natural order. */
  lemma DefaultSortKeepsNaturalOrder(videos: seq<Doc<Video>>, users: seq<Doc<User>>, me: Id, sortType: Option<string>)
    ensures Listed(videos, users, me, None, sortType) == Joined(Select(videos, VideoOwnedBy(me)), users)
  {
    var joined := Joined(Select(videos, VideoOwnedBy(me)), users);
    var key := FieldKey(SortField(None));
    forall i | 0 <= i < |joined| ensures key(joined[i]) == Missing {
      CreatedAtMissing(joined[i]);
    }
    SortAllTied(joined, key, sortType == Some("desc"), Missing);
  }

  /** No projected video has a `createdAt` to sort on. */
  lemma CreatedAtMissing(v: ProjectedVideo)
    ensures FieldKey(SortField(None))(v) == Missing
  {
    assert SortField(None) == "createdAt";
  }

  /** `getVideoById` (without the population of `owner`). */
  function GetVideoById(videos: seq<Doc<Video>>, videoId: Id, isValidObjectId: Id -> bool): (r: Completion<Doc<Video>>)
    ensures !isValidObjectId(videoId) ==> r == Threw(Api(400, "Invalid video ID"))
    ensures isValidObjectId(videoId) && !HasId(videos, videoId) ==> r == Threw(Api(404, "Video not found"))
    ensures isValidObjectId(videoId) && HasId(videos, videoId) ==>
      r.Wrote? && r.status == 200 && r.data in videos && r.data.id == videoId
  {
    if !isValidObjectId(videoId) then Threw(Api(400, "Invalid video ID"))
    else
      FindByIdPresent(videos, videoId);
      match FindById(videos, videoId)
      case None => Threw(Api(404, "Video not found"))
      case Some(i) => Wrote(200, videos[i])
  }

  /** `createVideo`: the body never carries a duration, so the new video
      fails validation whenever the required-field check passes. */
  method CreateVideo(db: Db, me: Id, title: Option<string>, description: Option<string>,
                     videoFile: Option<string>, thumbnail: Option<string>, now: Time)
    returns (r: Completion<Doc<Video>>)
    requires db.Valid()
    modifies db
    ensures db.Valid()
    ensures db.State() == old(db.State())
    ensures !Truthy(title) || !Truthy(description) || !Truthy(videoFile) || !Truthy(thumbnail) ==>
      r == Threw(Api(400, "Title, description, video file, and thumbnail are required"))
    ensures Truthy(title) && Truthy(description) && Truthy(videoFile) && Truthy(thumbnail) ==>
      r == Threw(ValidationFailed("Video"))
  {
    if !Truthy(title) || !Truthy(description) || !Truthy(videoFile) || !Truthy(thumbnail) {
      r := Threw(Api(400, "Title, description, video file, and thumbnail are required"));
      return;
    }
    var v := NewVideo(videoFile, thumbnail, title, description, None, Some(me));
    NewVideoValidIff(videoFile, thumbnail, title, description, None, Some(me));
    var made := db.CreateVideo(v, now);
    assert made.None?;
    r := Threw(ValidationFailed("Video"));
  }

  /** `if (title) video.title = title` and likewise for the description and
      the thumbnail. */
  function PatchVideo(v: Video, title: Option<string>, description: Option<string>, thumbnail: Option<string>): Video
  {
    v.(title := if Truthy(title) then title else v.title,
       description := if Truthy(description) then description else v.description,
       thumbnail := if Truthy(thumbnail) then thumbnail else v.thumbnail)
  }

  /** The patch replaces only the truthy fields, is idempotent, and keeps a
      valid video valid (a truthy value replaces a truthy one). */
  lemma PatchVideoKeepsValid(v: Video, title: Option<string>, description: Option<string>, thumbnail: Option<string>)
    ensures var p := PatchVideo(v, title, description, thumbnail);
      && p.(title := v.title, description := v.description, thumbnail := v.thumbnail) == v
      && (Truthy(title) ==> p.title == title) && (!Truthy(title) ==> p.title == v.title)
      && (Truthy(description) ==> p.description == description)
      && (!Truthy(description) ==> p.description == v.description)
      && (Truthy(thumbnail) ==> p.thumbnail == thumbnail) && (!Truthy(thumbnail) ==> p.thumbnail == v.thumbnail)
      && PatchVideo(p, title, description, thumbnail) == p
      && (VideoValid(v) ==> VideoValid(p))
  {
  }

  /** `video.save()`: validation of the whole document, then the write. */
  method SaveVideo(db: Db, i: nat, data: Video, now: Time) returns (r: Completion<Doc<Video>>)
    requires db.Valid() && i < |db.videos|
    modifies db
    ensures db.Valid()
    ensures !VideoValid(data) ==> r == Threw(ValidationFailed("Video")) && db.State() == old(db.State())
    ensures VideoValid(data) ==>
      && r == Wrote(200, Saved(old(db.videos)[i], now, data))
      && db.State() == old(db.State()).(videos := old(db.videos)[i := r.data])
  {
    if !VideoValid(data) {
      r := Threw(ValidationFailed("Video"));
      return;
    }
    var d := Saved(db.videos[i], now, data);
    WellKeyedReplace(db.videos, db.nextId, i, d);
    db.videos := db.videos[i := d];
    r := Wrote(200, d);
  }

  /** `updateVideo`. */
  method UpdateVideo(db: Db, videoId: Id, title: Option<string>, description: Option<string>, thumbnail: Option<string>,
                     isValidObjectId: Id -> bool, now: Time)
    returns (r: Completion<Doc<Video>>)
    requires db.Valid()
    modifies db
    ensures db.Valid()
    ensures r.Threw? ==> db.State() == old(db.State())
    ensures !isValidObjectId(videoId) ==> r == Threw(Api(400, "Invalid video ID"))
    ensures isValidObjectId(videoId) && !HasId(old(db.videos), videoId) ==> r == Threw(Api(404, "Video not found"))
    ensures isValidObjectId(videoId) && FindById(old(db.videos), videoId).Some? ==>
      var i := FindById(old(db.videos), videoId).value;
      var v := old(db.videos)[i];
      var p := PatchVideo(v.data, title, description, thumbnail);
      && (!VideoValid(p) ==> r == Threw(ValidationFailed("Video")))
      && (VideoValid(p) ==> (r == Wrote(200, Saved(v, now, p)) &&
            db.State() == old(db.State()).(videos := old(db.videos)[i := r.data])))
  {
    if !isValidObjectId(videoId) {
      r := Threw(Api(400, "Invalid video ID"));
      return;
    }
    FindByIdPresent(db.videos, videoId);
    var found := FindById(db.videos, videoId);
    if found.None? {
      r := Threw(Api(404, "Video not found"));
      return;
    }
    var i := found.value;
    r := SaveVideo(db, i, PatchVideo(db.videos[i].data, title, description, thumbnail), now);
  }

  /** `deleteVideo`. */
  method DeleteVideo(db: Db, videoId: Id, isValidObjectId: Id -> bool) returns (r: Completion<()>)
    requires db.Valid()
    modifies db
    ensures db.Valid()
    ensures r.Threw? ==> db.State() == old(db.State())
    ensures !isValidObjectId(videoId) ==> r == Threw(Api(400, "Invalid video ID"))
    ensures isValidObjectId(videoId) && !HasId(old(db.videos), videoId) ==> r == Threw(Api(404, "Video not found"))
    ensures isValidObjectId(videoId) && FindById(old(db.videos), videoId).Some? ==>
      && r == Wrote(200, ())
      && db.State() == old(db.State()).(videos := RemoveAt(old(db.videos), FindById(old(db.videos), videoId).value))
      && !HasId(db.videos, videoId)
  {
    if !isValidObjectId(videoId) {
      r := Threw(Api(400, "Invalid video ID"));
      return;
    }
    FindByIdPresent(db.videos, videoId);
    var found := FindById(db.videos, videoId);
    if found.None? {
      r := Threw(Api(404, "Video not found"));
      return;
    }
    WellKeyedRemove(db.videos, db.nextId, found.value);
    db.videos := RemoveAt(db.videos, found.value);
    r := Wrote(200, ());
  }

  /** `video.isPublished = !video.isPublished`. */
  function Flipped(v: Video): Video
  {
    v.(isPublished := !v.isPublished)
  }

  /** Flipping twice gives the video back, and flipping never changes
      whether it validates. */
  lemma FlipTwiceRestores(v: Video)
    ensures Flipped(Flipped(v)) == v
    ensures Flipped(v) != v
    ensures VideoValid(Flipped(v)) <==> VideoValid(v)
  {
  }

  /** `toggleVideoPublishStatus`. */
  method ToggleVideoPublishStatus(db: Db, videoId: Id, isValidObjectId: Id -> bool, now: Time)
    returns (r: Completion<Doc<Video>>)
    requires db.Valid()
    modifies db
    ensures db.Valid()
    ensures r.Threw? ==> db.State() == old(db.State())
    ensures !isValidObjectId(videoId) ==> r == Threw(Api(400, "Invalid video ID"))
    ensures isValidObjectId(videoId) && !HasId(old(db.videos), videoId) ==> r == Threw(Api(404, "Video not found"))
    ensures isValidObjectId(videoId) && FindById(old(db.videos), videoId).Some? ==>
      var i := FindById(old(db.videos), videoId).value;
      var v := old(db.videos)[i];
      && (!VideoValid(v.data) ==> r == Threw(ValidationFailed("Video")))
      && (VideoValid(v.data) ==> (r == Wrote(200, Saved(v, now, Flipped(v.data))) &&
            r.data.data.isPublished == !v.data.isPublished &&
            db.State() == old(db.State()).(videos := old(db.videos)[i := r.data])))
  {
    if !isValidObjectId(videoId) {
      r := Threw(Api(400, "Invalid video ID"));
      return;
    }
    FindByIdPresent(db.videos, videoId);
    var found := FindById(db.videos, videoId);
    if found.None? {
      r := Threw(Api(404, "Video not found"));
      return;
    }
    var i := found.value;
    FlipTwiceRestores(db.videos[i].data);
    r := SaveVideo(db, i, Flipped(db.videos[i].data), now);
  }
}
