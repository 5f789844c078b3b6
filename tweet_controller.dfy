/** The tweet handlers. None of them checks that the requester owns the
    tweet, and `getUserTweets` lists the requester's tweets whatever user the
    route names. */
module TweetController {
  import opened Common
  import opened JsStrings
  import opened ApiErrors
  import opened AsyncHandler
  import opened Ordering
  import opened Store
  import opened TweetModel

  /** The filter `{ owner }` on tweets. */
  function TweetOwnedBy(owner: Id): Doc<Tweet> -> bool
  {
    (d: Doc<Tweet>) => d.data.owner == Some(owner)
  }

  /** `createTweet`: the schema's validators run on save. */
  method CreateTweet(db: Db, me: Id, content: Option<string>, now: Time) returns (r: Completion<Doc<Tweet>>)
    requires db.Valid()
    modifies db
    ensures db.Valid()
    ensures r.Threw? ==> db.State() == old(db.State())
    ensures !Truthy(content) ==> r == Threw(Api(400, "Content is required"))
    ensures Truthy(content) && Utf16Length(content.value) > MaxContentLength ==> r == Threw(ValidationFailed("Tweet"))
    ensures Truthy(content) && Utf16Length(content.value) <= MaxContentLength ==>
      && r == Wrote(201, Fresh(old(db.nextId), now, Tweet(content, Some(me))))
      && db.State() == old(db.State()).(tweets := old(db.tweets) + [r.data], nextId := old(db.nextId) + 1)
  {
    if !Truthy(content) {
      r := Threw(Api(400, "Content is required"));
      return;
    }
    var made := db.CreateTweet(Tweet(content, Some(me)), now);
    if made.None? {
      r := Threw(ValidationFailed("Tweet"));
    } else {
      r := Wrote(201, made.value);
    }
  }

  /** `getUserTweets` (without the population of `owner`): the requester's
      tweets, newest first. The `userId` route parameter is never read. */
  function GetUserTweets(tweets: seq<Doc<Tweet>>, me: Id, userId: Id): (r: Completion<seq<Doc<Tweet>>>)
    ensures r.Wrote? && r.status == 200
    ensures NewestFirstOrder(r.data)
    ensures forall i :: 0 <= i < |r.data| ==> r.data[i] in tweets && r.data[i].data.owner == Some(me)
    ensures forall i :: 0 <= i < |tweets| && tweets[i].data.owner == Some(me) ==> tweets[i] in r.data
    ensures multiset(r.data) == multiset(Select(tweets, TweetOwnedBy(me)))
  {
    var found := FindNewestFirst(tweets, TweetOwnedBy(me));
    assert forall i :: 0 <= i < |tweets| ==> (TweetOwnedBy(me)(tweets[i]) <==> tweets[i].data.owner == Some(me));
    Wrote(200, found)
  }

  /** Whatever user the route names, the reply is the same: this records the
      defect that `getUserTweets` never reads its `userId` parameter. */
  lemma UserTweetsIgnoreRouteUser(tweets: seq<Doc<Tweet>>, me: Id, a: Id, b: Id)
    ensures GetUserTweets(tweets, me, a) == GetUserTweets(tweets, me, b)
  {
  }

  /** A tweet with new content validates exactly when the content is
      present, non-empty and within the length limit (the owner is kept). */
  lemma NewContentValidIff(t: Tweet, content: Option<string>)
    requires t.owner.Some?
    ensures TweetValid(t.(content := content)) <==>
      Truthy(content) && Utf16Length(content.value) <= MaxContentLength
    ensures t.(content := content).owner == t.owner
  {
  }

  /** `updateTweet`: any requester may replace any tweet's content; the
      content is not checked before the save, whose validators may refuse it. */
  method UpdateTweet(db: Db, me: Id, tweetId: Id, content: Option<string>, isValidObjectId: Id -> bool, now: Time)
    returns (r: Completion<Doc<Tweet>>)
    requires db.Valid()
    modifies db
    ensures db.Valid()
    ensures r.Threw? ==> db.State() == old(db.State())
    ensures !isValidObjectId(tweetId) ==> r == Threw(Api(400, "Invalid tweet ID"))
    ensures isValidObjectId(tweetId) && !HasId(old(db.tweets), tweetId) ==> r == Threw(Api(404, "Tweet not found"))
    ensures isValidObjectId(tweetId) && FindById(old(db.tweets), tweetId).Some? ==>
      var i := FindById(old(db.tweets), tweetId).value;
      var t := old(db.tweets)[i];
      var updated := t.data.(content := content);
      && (!TweetValid(updated) ==> r == Threw(ValidationFailed("Tweet")))
      && (TweetValid(updated) ==> (r == Wrote(200, Saved(t, now, updated)) &&
            db.State() == old(db.State()).(tweets := old(db.tweets)[i := r.data])))
  {
    if !isValidObjectId(tweetId) {
      r := Threw(Api(400, "Invalid tweet ID"));
      return;
    }
    FindByIdPresent(db.tweets, tweetId);
    var found := FindById(db.tweets, tweetId);
    if found.None? {
      r := Threw(Api(404, "Tweet not found"));
      return;
    }
    var i := found.value;
    var t := db.tweets[i];
    var updated := t.data.(content := content);
    if !TweetValid(updated) {
      r := Threw(ValidationFailed("Tweet"));
      return;
    }
    var d := Saved(t, now, updated);
    WellKeyedReplace(db.tweets, db.nextId, i, d);
    db.tweets := db.tweets[i := d];
    r := Wrote(200, d);
  }

  /** `deleteTweet`: any requester may delete any tweet; the reply carries
      the deleted tweet. */
  method DeleteTweet(db: Db, me: Id, tweetId: Id, isValidObjectId: Id -> bool) returns (r: Completion<Doc<Tweet>>)
    requires db.Valid()
    modifies db
    ensures db.Valid()
    ensures r.Threw? ==> db.State() == old(db.State())
    ensures !isValidObjectId(tweetId) ==> r == Threw(Api(400, "Invalid tweet ID"))
    ensures isValidObjectId(tweetId) && !HasId(old(db.tweets), tweetId) ==> r == Threw(Api(404, "Tweet not found"))
    ensures isValidObjectId(tweetId) && FindById(old(db.tweets), tweetId).Some? ==>
      var i := FindById(old(db.tweets), tweetId).value;
      && r == Wrote(200, old(db.tweets)[i])
      && db.State() == old(db.State()).(tweets := RemoveAt(old(db.tweets), i))
      && !HasId(db.tweets, tweetId)
  {
    if !isValidObjectId(tweetId) {
      r := Threw(Api(400, "Invalid tweet ID"));
      return;
    }
    FindByIdPresent(db.tweets, tweetId);
    var found := FindById(db.tweets, tweetId);
    if found.None? {
      r := Threw(Api(404, "Tweet not found"));
      return;
    }
    var i := found.value;
    r := Wrote(200, db.tweets[i]);
    WellKeyedRemove(db.tweets, db.nextId, i);
    db.tweets := RemoveAt(db.tweets, i);
  }
}
