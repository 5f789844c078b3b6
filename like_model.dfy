/** The `Like` schema: a required `video`, `comment` and `tweet` defaulting to
    null, and a required `likedBy`. The like handlers read and write a field
    `user` that the schema does not declare; it is kept here so the handlers
    can be modelled as written (strict mode would drop it from a new like,
    but no new like ever validates). */
module LikeModel {
  import opened Common

  datatype Like = Like(
    video: Option<Id>,
    comment: Option<Id>,
    tweet: Option<Id>,
    likedBy: Option<Id>,
    user: Option<Id>)

  /** The required validators of `video` and `likedBy`. */
  predicate LikeValid(l: Like)
  {
    l.video.Some? && l.likedBy.Some?
  }

  /** The kinds of document a like can point at. */
  datatype Kind = OfVideo | OfComment | OfTweet

  /** What a like points at: a kind and the id of the document. */
  datatype Target = Target(kind: Kind, id: Id)

  /** The field of a like that holds a target of the given kind. */
  function TargetField(l: Like, k: Kind): Option<Id>
  {
    match k
    case OfVideo => l.video
    case OfComment => l.comment
    case OfTweet => l.tweet
  }

  /** `Like.create({ user, <target>: id })`: the named fields, then the
      schema's defaults (null comment and tweet, nothing else). */
  function NewLike(user: Id, t: Target): (l: Like)
    ensures l.user == Some(user) && TargetField(l, t.kind) == Some(t.id)
    ensures l.likedBy == None
  {
    match t.kind
    case OfVideo => Like(Some(t.id), None, None, None, Some(user))
    case OfComment => Like(None, Some(t.id), None, None, Some(user))
    case OfTweet => Like(None, None, Some(t.id), None, Some(user))
  }

  /** No like the handlers create passes validation: `likedBy` is never set,
      and a comment or tweet like has no `video` either. */
  lemma HandlerLikesInvalid(user: Id, t: Target)
    ensures !LikeValid(NewLike(user, t))
    ensures t.kind != OfVideo ==> NewLike(user, t).video.None?
  {
  }
}
