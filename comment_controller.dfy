/** The comment handlers. The module imports no `Video` model, so `addComment`
    takes the binding as a parameter: `Unbound` is the module as written. */
module CommentController {
  import opened Common
  import opened JsStrings
  import opened ApiErrors
  import opened AsyncHandler
  import opened Ordering
  import opened Paging
  import opened Store

  /** `Video` as the comment controller sees it. */
  const VideoInScope: Binding := Unbound

  /** The filter `{ video: videoId }`. */
  function OnVideo(videoId: Id): Doc<Comment> -> bool
  {
    (d: Doc<Comment>) => d.data.video == Some(videoId)
  }

  /** `!content || content.trim() === ""`. */
  predicate BlankContent(content: Option<string>)
  {
    !Truthy(content) || Trim(content.value) == ""
  }

  /** The body of `getVideoComments`' reply. `totalPages` is `None` where the
      division by a zero limit serializes as `null`. */
  datatype CommentsPage = CommentsPage(
    comments: seq<Doc<Comment>>,
    totalPages: Option<int>,
    currentPage: int,
    totalComments: nat)

  /** `getVideoComments`: the video's comments newest first, one page of
      them, and the counts. A negative skip is refused by the database; a
      NaN page or limit is taken to be refused too, as a server that checks
      `find`'s skip and limit strictly does. */
  function GetVideoComments(comments: seq<Doc<Comment>>, videoId: Id, page: Option<string>, limit: Option<string>)
    : (r: Completion<CommentsPage>)
    ensures var p := QueryInt(page, 1);
      var l := QueryInt(limit, 10);
      (p.None? || l.None? || (p.value - 1) * l.value < 0) <==> r == Threw(MongoError(BadValue, BadValueMessage))
    ensures r.Wrote? ==>
      && r.status == 200
      && r.data.currentPage == QueryInt(page, 1).value
      && r.data.totalComments == |Select(comments, OnVideo(videoId))|
      && r.data.totalPages == TotalPages(r.data.totalComments, QueryInt(limit, 10).value)
      && NewestFirstOrder(r.data.comments)
      && forall i :: 0 <= i < |r.data.comments| ==> r.data.comments[i] in comments && r.data.comments[i].data.video == Some(videoId)
  {
    CommentsReply(comments, videoId, QueryInt(page, 1), QueryInt(limit, 10))
  }

  /** The reply for a page and a limit already read (`None` is NaN). */
  function CommentsReply(comments: seq<Doc<Comment>>, videoId: Id, p: Option<int>, l: Option<int>): (r: Completion<CommentsPage>)
    ensures (p.None? || l.None? || (p.value - 1) * l.value < 0) <==> r == Threw(MongoError(BadValue, BadValueMessage))
    ensures r.Wrote? ==>
      && r.status == 200
      && r.data.currentPage == p.value
      && r.data.totalComments == |Select(comments, OnVideo(videoId))|
      && r.data.totalPages == TotalPages(r.data.totalComments, l.value)
      && NewestFirstOrder(r.data.comments)
      && forall i :: 0 <= i < |r.data.comments| ==> r.data.comments[i] in comments && r.data.comments[i].data.video == Some(videoId)
  {
    if p.None? || l.None? then Threw(MongoError(BadValue, BadValueMessage))
    else
      var all := FindNewestFirst(comments, OnVideo(videoId));
      match Page(all, p.value, l.value)
      case None => Threw(MongoError(BadValue, BadValueMessage))
      case Some(onPage) =>
        PageSlice(all, p.value, l.value);
        assert forall i :: 0 <= i < |onPage| ==> onPage[i] in all;
        Wrote(200, CommentsPage(onPage, TotalPages(|all|, l.value), p.value, |all|))
  }

  /** Page `page` of the video's comments, `limit` to a page, with both given
      as decimal strings. */
  function CommentsOnPage(comments: seq<Doc<Comment>>, videoId: Id, page: nat, limit: nat): Completion<CommentsPage>
  {
    GetVideoComments(comments, videoId, Some(DecimalString(page)), Some(DecimalString(limit)))
  }

  /** The reply for a positive limit and a page from 1 on, spelled out. */
  lemma CommentsOnPageReply(comments: seq<Doc<Comment>>, videoId: Id, page: nat, limit: nat)
    requires limit > 0 && page >= 1
    ensures var all := FindNewestFirst(comments, OnVideo(videoId));
      && |all| == |Select(comments, OnVideo(videoId))|
      && Page(all, page, limit).Some?
      && CommentsOnPage(comments, videoId, page, limit) ==
         Wrote(200, CommentsPage(Page(all, page, limit).value, Some(CeilDiv(|all|, limit)), page, |all|))
  {
    ReadDecimal(page, limit);
    PageOfPositiveLimit(comments, videoId, page, limit);
  }

  lemma ReadDecimal(page: nat, limit: nat)
    ensures QueryInt(Some(DecimalString(page)), 1) == Some(page)
    ensures QueryInt(Some(DecimalString(limit)), 10) == Some(limit)
  {
    ParseIntDecimalString(page);
    ParseIntDecimalString(limit);
  }

  lemma PageOfPositiveLimit(comments: seq<Doc<Comment>>, videoId: Id, page: nat, limit: nat)
    requires limit > 0 && page >= 1
    ensures var all := FindNewestFirst(comments, OnVideo(videoId));
      && Page(all, page, limit).Some?
      && CommentsReply(comments, videoId, Some(page), Some(limit)) ==
         Wrote(200, CommentsPage(Page(all, page, limit).value, Some(CeilDiv(|all|, limit)), page, |all|))
  {
    assert 0 <= (page - 1) * limit;
  }

  /** With a positive limit and a page from 1 on, the reply holds at most
      `limit` comments, the page count is the ceiling of the count over the
      limit, and the page is non-empty exactly when it is within that count. */
  lemma {:induction false} VideoCommentsPageBounds(comments: seq<Doc<Comment>>, videoId: Id, page: nat, limit: nat)
    requires limit > 0 && page >= 1
    ensures var r := CommentsOnPage(comments, videoId, page, limit);
      && r.Wrote?
      && r.data.currentPage == page
      && r.data.totalPages == Some(CeilDiv(r.data.totalComments, limit))
      && |r.data.comments| <= limit
      && (|r.data.comments| > 0 <==> page <= r.data.totalPages.value)
  {
    CommentsOnPageReply(comments, videoId, page, limit);
    var all := FindNewestFirst(comments, OnVideo(videoId));
    PageContents(all, page, limit);
    PageNonEmptyIff(all, page, limit);
  }

  /** Comment `c` is on page `page` of the video's comments, which is within
      the page count. */
  predicate ListedOn(comments: seq<Doc<Comment>>, videoId: Id, page: nat, limit: nat, c: Doc<Comment>)
  {
    var r := CommentsOnPage(comments, videoId, page, limit);
    && 1 <= page && r.Wrote? && r.data.totalPages.Some?
    && page <= r.data.totalPages.value && c in r.data.comments
  }

  /** Every comment on the video is listed on some page within the page
      count. */
  lemma {:induction false} EveryVideoCommentListed(comments: seq<Doc<Comment>>, videoId: Id, limit: nat, c: Doc<Comment>)
    requires limit > 0 && c in comments && c.data.video == Some(videoId)
    ensures exists page: nat :: ListedOn(comments, videoId, page, limit, c)
  {
    var all := FindNewestFirst(comments, OnVideo(videoId));
    assert c in all by {
      var k :| 0 <= k < |comments| && comments[k] == c;
      assert OnVideo(videoId)(comments[k]);
    }
    var j :| 0 <= j < |all| && all[j] == c;
    var page, pos := EveryDocumentOnSomePage(all, j, limit);
    CommentsOnPageReply(comments, videoId, page, limit);
    var r := CommentsOnPage(comments, videoId, page, limit);
    assert r.data.comments[pos] == c;
    assert page <= r.data.totalPages.value;
    assert ListedOn(comments, videoId, page, limit, c);
  }

  /** `addComment`; `video` says whether `Video` is in scope. */
  method AddComment(db: Db, me: Id, videoId: Id, content: Option<string>, video: Binding, now: Time)
    returns (r: Completion<Doc<Comment>>)
    requires db.Valid()
    modifies db
    ensures db.Valid()
    ensures r.Threw? ==> db.State() == old(db.State())
    ensures BlankContent(content) ==> r == Threw(Api(400, "Comment content is required"))
    ensures !BlankContent(content) && video.Unbound? ==> r == Threw(ReferenceError("Video"))
    ensures !BlankContent(content) && video.Bound? && !HasId(old(db.videos), videoId) ==>
      r == Threw(Api(404, "Video not found"))
    ensures !BlankContent(content) && video.Bound? && HasId(old(db.videos), videoId) ==>
      && r == Wrote(201, Fresh(old(db.nextId), now, Comment(content, Some(me), Some(videoId))))
      && db.State() == old(db.State()).(comments := old(db.comments) + [r.data], nextId := old(db.nextId) + 1)
  {
    if BlankContent(content) {
      r := Threw(Api(400, "Comment content is required"));
      return;
    }
    if video.Unbound? {
      r := Threw(ReferenceError("Video"));
      return;
    }
    FindByIdPresent(db.videos, videoId);
    if FindById(db.videos, videoId).None? {
      r := Threw(Api(404, "Video not found"));
      return;
    }
    var d := db.CreateComment(Comment(content, Some(me), Some(videoId)), now);
    r := Wrote(201, d);
  }

  /** Reading `comment.owner.toString()` when the comment has no owner. */
  const NoOwner: JsError := TypeError("Cannot read properties of undefined (reading 'toString')")

  /** `updateComment`: only the owner may change the content. */
  method UpdateComment(db: Db, me: Id, commentId: Id, content: Option<string>, now: Time)
    returns (r: Completion<Doc<Comment>>)
    requires db.Valid()
    modifies db
    ensures db.Valid()
    ensures r.Threw? ==> db.State() == old(db.State())
    ensures BlankContent(content) ==> r == Threw(Api(400, "Updated comment content is required"))
    ensures !BlankContent(content) && !HasId(old(db.comments), commentId) ==> r == Threw(Api(404, "Comment not found"))
    ensures !BlankContent(content) && FindById(old(db.comments), commentId).Some? ==>
      var i := FindById(old(db.comments), commentId).value;
      var c := old(db.comments)[i];
      && (c.data.owner.None? ==> r == Threw(NoOwner))
      && (c.data.owner.Some? && c.data.owner != Some(me) ==>
            r == Threw(Api(403, "You are not authorized to update this comment")))
      && (c.data.owner == Some(me) ==>
            && r == Wrote(200, Saved(c, now, c.data.(content := content)))
            && db.State() == old(db.State()).(comments := old(db.comments)[i := r.data]))
  {
    if BlankContent(content) {
      r := Threw(Api(400, "Updated comment content is required"));
      return;
    }
    FindByIdPresent(db.comments, commentId);
    var found := FindById(db.comments, commentId);
    if found.None? {
      r := Threw(Api(404, "Comment not found"));
      return;
    }
    var i := found.value;
    var c := db.comments[i];
    if c.data.owner.None? {
      r := Threw(NoOwner);
      return;
    }
    if c.data.owner.value != me {
      r := Threw(Api(403, "You are not authorized to update this comment"));
      return;
    }
    var d := Saved(c, now, c.data.(content := content));
    WellKeyedReplace(db.comments, db.nextId, i, d);
    db.comments := db.comments[i := d];
    r := Wrote(200, d);
  }

  /** `deleteComment`: only the owner may delete; the reply carries `null`. */
  method DeleteComment(db: Db, me: Id, commentId: Id) returns (r: Completion<()>)
    requires db.Valid()
    modifies db
    ensures db.Valid()
    ensures r.Threw? ==> db.State() == old(db.State())
    ensures !HasId(old(db.comments), commentId) ==> r == Threw(Api(404, "Comment not found"))
    ensures FindById(old(db.comments), commentId).Some? ==>
      var i := FindById(old(db.comments), commentId).value;
      var c := old(db.comments)[i];
      && (c.data.owner.None? ==> r == Threw(NoOwner))
      && (c.data.owner.Some? && c.data.owner != Some(me) ==>
            r == Threw(Api(403, "You are not authorized to delete this comment")))
      && (c.data.owner == Some(me) ==>
            && r == Wrote(200, ())
            && db.State() == old(db.State()).(comments := RemoveAt(old(db.comments), i))
            && !HasId(db.comments, commentId))
  {
    FindByIdPresent(db.comments, commentId);
    var found := FindById(db.comments, commentId);
    if found.None? {
      r := Threw(Api(404, "Comment not found"));
      return;
    }
    var i := found.value;
    var c := db.comments[i];
    if c.data.owner.None? {
      r := Threw(NoOwner);
      return;
    }
    if c.data.owner.value != me {
      r := Threw(Api(403, "You are not authorized to delete this comment"));
      return;
    }
    WellKeyedRemove(db.comments, db.nextId, i);
    db.comments := RemoveAt(db.comments, i);
    r := Wrote(200, ());
  }
}
