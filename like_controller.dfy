/** The like handlers: one toggle per kind of target and one listing per kind.
    A toggle deletes the requester's like when there is one and otherwise
    creates one; the like it creates never passes the `Like` schema's
    validation, so the create branch always ends in a validation error. */
module LikeController {
  import opened Common
  import opened ApiErrors
  import opened AsyncHandler
  import opened Store
  import opened LikeModel
  import opened Toggles

  /** The filter `{ user: me, <kind>: id }`. With `strictQuery` Mongoose
      drops `user`, which the schema does not declare, and only the target
      is matched. */
  function LikedBy(me: Id, t: Target, strictQuery: bool): Doc<Like> -> bool
  {
    (d: Doc<Like>) => (strictQuery || d.data.user == Some(me)) && TargetField(d.data, t.kind) == Some(t.id)
  }

  /** The filter `{ user: me, <kind>: { $ne: null } }`, likewise without
      `user` under `strictQuery`. */
  function LikesOfKind(me: Id, k: Kind, strictQuery: bool): Doc<Like> -> bool
  {
    (d: Doc<Like>) => (strictQuery || d.data.user == Some(me)) && TargetField(d.data, k).Some?
  }

  /** The 400 message when the target id is not a valid ObjectId. */
  function InvalidIdMessage(k: Kind): string
  {
    match k
    case OfVideo => "Invalid video ID"
    case OfComment => "Invalid comment ID"
    case OfTweet => "Invalid tweet ID"
  }

  /** The likes after a toggle as the handlers run it: a matching like is
      deleted; otherwise the create fails validation and nothing changes. */
  function LikeToggled(likes: seq<Doc<Like>>, me: Id, t: Target, strictQuery: bool): seq<Doc<Like>>
  {
    match FindFirst(likes, LikedBy(me, t, strictQuery))
    case Some(i) => RemoveAt(likes, i)
    case None => likes
  }

  /** `toggleVideoLike`, `toggleCommentLike` and `toggleTweetLike`.
      `isValidObjectId` is mongoose's check of the route parameter. */
  method ToggleLike(db: Db, me: Id, t: Target, strictQuery: bool, isValidObjectId: Id -> bool, now: Time)
    returns (r: Completion<Option<Doc<Like>>>)
    requires db.Valid()
    modifies db
    ensures db.Valid()
    ensures !isValidObjectId(t.id) ==>
      r == Threw(Api(400, InvalidIdMessage(t.kind))) && db.State() == old(db.State())
    ensures isValidObjectId(t.id) ==>
      db.State() == old(db.State()).(likes := LikeToggled(old(db.likes), me, t, strictQuery))
    ensures isValidObjectId(t.id) && FindFirst(old(db.likes), LikedBy(me, t, strictQuery)).Some? ==> r == Wrote(200, None)
    ensures isValidObjectId(t.id) && FindFirst(old(db.likes), LikedBy(me, t, strictQuery)).None? ==>
      r == Threw(ValidationFailed("Like"))
  {
    if !isValidObjectId(t.id) {
      r := Threw(Api(400, InvalidIdMessage(t.kind)));
      return;
    }
    var existing := FindFirst(db.likes, LikedBy(me, t, strictQuery));
    if existing.Some? {
      WellKeyedRemove(db.likes, db.nextId, existing.value);
      db.likes := RemoveAt(db.likes, existing.value);
      r := Wrote(200, None);
    } else {
      HandlerLikesInvalid(me, t);
      var made := db.CreateLike(NewLike(me, t), now);
      if made.Some? {
        r := Wrote(201, made);
      } else {
        r := Threw(ValidationFailed("Like"));
      }
    }
  }

  /** As written, a toggle is the intended toggle when there is a like to
      delete, and does nothing where the intended toggle would create one. */
  lemma LikeToggledAgainstIntended(likes: seq<Doc<Like>>, me: Id, t: Target, strictQuery: bool, made: Doc<Like>)
    requires made.data == NewLike(me, t)
    ensures FindFirst(likes, LikedBy(me, t, strictQuery)).Some? ==>
      LikeToggled(likes, me, t, strictQuery) == Toggle(likes, LikedBy(me, t, strictQuery), made).0
    ensures FindFirst(likes, LikedBy(me, t, strictQuery)).None? ==>
      && LikeToggled(likes, me, t, strictQuery) == likes
      && Toggle(likes, LikedBy(me, t, strictQuery), made).0 == likes + [made]
  {
  }

  /** A toggle never adds a like: the requester's likes on the target fall by
      one or stay at none, and every other like is kept, in order. */
  lemma LikeToggleNeverAdds(likes: seq<Doc<Like>>, me: Id, t: Target, strictQuery: bool)
    ensures |LikeToggled(likes, me, t, strictQuery)| <= |likes|
    ensures Select(LikeToggled(likes, me, t, strictQuery), Not(LikedBy(me, t, strictQuery))) ==
      Select(likes, Not(LikedBy(me, t, strictQuery)))
    ensures var n := |Select(likes, LikedBy(me, t, strictQuery))|;
      var n' := |Select(LikeToggled(likes, me, t, strictQuery), LikedBy(me, t, strictQuery))|;
      (n == 0 ==> n' == 0) && (n > 0 ==> n' == n - 1)
  {
    var key := LikedBy(me, t, strictQuery);
    match FindFirst(likes, key)
    case Some(k) =>
      SelectRemoveRejected(likes, k, Not(key));
      SelectRemoveAccepted(likes, k, key);
    case None =>
      SelectNone(likes, key);
  }

  /** So toggling twice does not give the like back: starting from a like,
      two toggles leave it deleted. */
  lemma LikeToggleTwiceDoesNotRestore(likes: seq<Doc<Like>>, me: Id, t: Target, strictQuery: bool)
    requires AtMostOne(likes, LikedBy(me, t, strictQuery)) && FindFirst(likes, LikedBy(me, t, strictQuery)).Some?
    ensures var k := FindFirst(likes, LikedBy(me, t, strictQuery)).value;
      LikeToggled(LikeToggled(likes, me, t, strictQuery), me, t, strictQuery) == RemoveAt(likes, k)
    ensures |LikeToggled(LikeToggled(likes, me, t, strictQuery), me, t, strictQuery)| == |likes| - 1
  {
    var key := LikedBy(me, t, strictQuery);
    var k := FindFirst(likes, key).value;
    var s := RemoveAt(likes, k);
    forall j | 0 <= j < |s| ensures !key(s[j]) {
      if j < k {
        assert s[j] == likes[j];
      } else {
        assert s[j] == likes[j + 1];
      }
    }
  }

  /** `getLikedVideos`, `getLikedComments` and `getLikedTweets` (without the
      population and the field projection): the requester's likes with the
      kind's field set, in natural order. */
  function GetLiked(likes: seq<Doc<Like>>, me: Id, k: Kind, strictQuery: bool): (r: Completion<seq<Doc<Like>>>)
    ensures r.Wrote? && r.status == 200
    ensures forall i :: 0 <= i < |r.data| ==>
      && r.data[i] in likes && TargetField(r.data[i].data, k).Some?
      && (strictQuery || r.data[i].data.user == Some(me))
    ensures forall i ::
      0 <= i < |likes| && (strictQuery || likes[i].data.user == Some(me)) && TargetField(likes[i].data, k).Some?
      ==> likes[i] in r.data
    ensures multiset(r.data) == multiset(Select(likes, LikesOfKind(me, k, strictQuery)))
  {
    var found := Select(likes, LikesOfKind(me, k, strictQuery));
    assert forall i :: 0 <= i < |found| ==> LikesOfKind(me, k, strictQuery)(found[i]);
    assert forall i :: 0 <= i < |likes| ==> (LikesOfKind(me, k, strictQuery)(likes[i]) <==>
      (strictQuery || likes[i].data.user == Some(me)) && TargetField(likes[i].data, k).Some?);
    Wrote(200, found)
  }

  /** With `strictQuery` the requester plays no part: any requester's toggle
      deletes the first like on the target, whoever gave it, and every
      requester is shown the same likes. */
  lemma StrictQueryIgnoresRequester(likes: seq<Doc<Like>>, a: Id, b: Id, t: Target, k: Kind)
    ensures LikeToggled(likes, a, t, true) == LikeToggled(likes, b, t, true)
    ensures GetLiked(likes, a, k, true) == GetLiked(likes, b, k, true)
    ensures forall i :: FindFirst(likes, LikedBy(a, t, true)) == Some(i) ==>
      TargetField(likes[i].data, t.kind) == Some(t.id) && LikeToggled(likes, a, t, true) == RemoveAt(likes, i)
  {
    SameFilterOn(likes, LikedBy(a, t, true), LikedBy(b, t, true));
    SameFilterOn(likes, LikesOfKind(a, k, true), LikesOfKind(b, k, true));
  }
}
