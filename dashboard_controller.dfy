/** The dashboard handlers: the requester's channel statistics and videos. */
module DashboardController {
  import opened Common
  import opened AsyncHandler
  import opened Ordering
  import opened Store
  import opened VideoModel
  import opened LikeModel
  import opened SubscriptionModel
  import opened Toggles
  import LikeController
  import SubscriptionController

  /** The filter `{ owner }` on videos. */
  function VideoOwnedBy(owner: Id): Doc<Video> -> bool
  {
    (d: Doc<Video>) => d.data.owner == Some(owner)
  }

  /** `videos.reduce((acc, video) => acc + (video.views || 0), 0)`. */
  function SumViews(vs: seq<Doc<Video>>): int
  {
    if |vs| == 0 then 0 else vs[0].data.views + SumViews(vs[1..])
  }

  lemma {:induction false} SumViewsAppend(a: seq<Doc<Video>>, b: seq<Doc<Video>>)
    ensures SumViews(a + b) == SumViews(a) + SumViews(b)
  {
    if |a| == 0 {
      assert a + b == b;
    } else {
      assert (a + b)[1..] == a[1..] + b;
      SumViewsAppend(a[1..], b);
    }
  }

  /** `videos.map((video) => video._id)`. */
  function VideoIds(vs: seq<Doc<Video>>): (r: seq<Id>)
    ensures |r| == |vs| && forall i :: 0 <= i < |vs| ==> r[i] == vs[i].id
  {
    seq(|vs|, i requires 0 <= i < |vs| => vs[i].id)
  }

  /** The filter `{ video: { $in: ids } }`. */
  function LikesOn(ids: seq<Id>): Doc<Like> -> bool
  {
    (d: Doc<Like>) => d.data.video.Some? && d.data.video.value in ids
  }

  datatype ChannelStats = ChannelStats(totalVideos: nat, totalViews: int, totalLikes: nat, totalSubscribers: nat)

  /** `getChannelStats`: the requester's video count, their views, the likes
      on those videos and the subscriptions to the requester's channel. */
  function GetChannelStats(videos: seq<Doc<Video>>, likes: seq<Doc<Like>>, subs: seq<Doc<Subscription>>, me: Id)
    : (r: Completion<ChannelStats>)
    ensures r.Wrote? && r.status == 200
    ensures r.data.totalVideos == |Select(videos, VideoOwnedBy(me))|
    ensures r.data.totalViews == SumViews(Select(videos, VideoOwnedBy(me)))
    ensures r.data.totalLikes == |Select(likes, LikesOn(VideoIds(Select(videos, VideoOwnedBy(me)))))|
    ensures r.data.totalSubscribers == |Select(subs, SubscriptionController.ChannelIs(me))|
  {
    var mine := Select(videos, VideoOwnedBy(me));
    Wrote(200, ChannelStats(
      |mine|,
      SumViews(mine),
      |Select(likes, LikesOn(VideoIds(mine)))|,
      |Select(subs, SubscriptionController.ChannelIs(me))|))
  }

  /** A like is counted exactly when it is on one of the requester's videos. */
  lemma LikeCountedIff(videos: seq<Doc<Video>>, me: Id, l: Doc<Like>)
    ensures LikesOn(VideoIds(Select(videos, VideoOwnedBy(me))))(l) <==>
      exists i :: 0 <= i < |videos| && videos[i].data.owner == Some(me) && l.data.video == Some(videos[i].id)
  {
    if LikesOn(VideoIds(Select(videos, VideoOwnedBy(me))))(l) {
      var i := CountedLikeIsOnMine(videos, me, l);
    }
    if exists i :: 0 <= i < |videos| && videos[i].data.owner == Some(me) && l.data.video == Some(videos[i].id) {
      var i :| 0 <= i < |videos| && videos[i].data.owner == Some(me) && l.data.video == Some(videos[i].id);
      LikeOnMineIsCounted(videos, me, l, i);
    }
  }

  /** The video a counted like is on: one of the requester's. */
  lemma CountedLikeIsOnMine(videos: seq<Doc<Video>>, me: Id, l: Doc<Like>) returns (i: nat)
    requires LikesOn(VideoIds(Select(videos, VideoOwnedBy(me))))(l)
    ensures i < |videos| && videos[i].data.owner == Some(me) && l.data.video == Some(videos[i].id)
  {
    var mine := Select(videos, VideoOwnedBy(me));
    var ids := VideoIds(mine);
    var k :| 0 <= k < |ids| && ids[k] == l.data.video.value;
    assert mine[k] in videos && VideoOwnedBy(me)(mine[k]);
    i :| 0 <= i < |videos| && videos[i] == mine[k];
  }

  /** A like on one of the requester's videos is counted. */
  lemma LikeOnMineIsCounted(videos: seq<Doc<Video>>, me: Id, l: Doc<Like>, i: nat)
    requires i < |videos| && videos[i].data.owner == Some(me) && l.data.video == Some(videos[i].id)
    ensures LikesOn(VideoIds(Select(videos, VideoOwnedBy(me))))(l)
  {
    var mine := Select(videos, VideoOwnedBy(me));
    assert VideoOwnedBy(me)(videos[i]);
    assert videos[i] in mine;
    var k :| 0 <= k < |mine| && mine[k] == videos[i];
    assert VideoIds(mine)[k] == videos[i].id;
  }

  /** A subscription toggle by anyone moves the channel's subscriber count by
      exactly one (up when it subscribes, down when it unsubscribes), and
      leaves every other channel's count alone. */
  lemma SubscriberCountAfterToggle(subs: seq<Doc<Subscription>>, subscriber: Id, channel: Id,
                                   made: Doc<Subscription>, me: Id)
    requires SubscriptionController.PairIs(subscriber, channel)(made)
    ensures var (after, created) := Toggle(subs, SubscriptionController.PairIs(subscriber, channel), made);
      var n := |Select(subs, SubscriptionController.ChannelIs(me))|;
      var n' := |Select(after, SubscriptionController.ChannelIs(me))|;
      && (channel == me && created ==> n' == n + 1)
      && (channel == me && !created ==> n' == n - 1)
      && (channel != me ==> n' == n)
  {
    var key := SubscriptionController.PairIs(subscriber, channel);
    var counted := SubscriptionController.ChannelIs(me);
    match FindFirst(subs, key)
    case None =>
      SelectAppend(subs, [made], counted);
      assert [made][1..] == [];
      if channel == me {
        assert Select([made], counted) == [made];
      } else {
        assert Select([made], counted) == [];
      }
    case Some(k) =>
      if channel == me {
        SelectRemoveAccepted(subs, k, counted);
      } else {
        SelectRemoveRejected(subs, k, counted);
      }
  }

  /** A like toggle never raises a like count: the likes it keeps are a
      subset of those before. */
  lemma LikeCountNeverRisesOnToggle(likes: seq<Doc<Like>>, liker: Id, t: Target, strictQuery: bool, ids: seq<Id>)
    ensures |Select(LikeController.LikeToggled(likes, liker, t, strictQuery), LikesOn(ids))| <= |Select(likes, LikesOn(ids))|
  {
    match FindFirst(likes, LikeController.LikedBy(liker, t, strictQuery))
    case None =>
    case Some(k) =>
      if LikesOn(ids)(likes[k]) {
        SelectRemoveAccepted(likes, k, LikesOn(ids));
      } else {
        SelectRemoveRejected(likes, k, LikesOn(ids));
      }
  }

  /** Deleting one of the requester's videos lowers the video count by one
      and the view total by that video's views. */
  lemma StatsAfterOwnVideoDeleted(videos: seq<Doc<Video>>, i: nat, me: Id)
    requires i < |videos| && videos[i].data.owner == Some(me)
    ensures |Select(RemoveAt(videos, i), VideoOwnedBy(me))| == |Select(videos, VideoOwnedBy(me))| - 1
    ensures SumViews(Select(RemoveAt(videos, i), VideoOwnedBy(me))) ==
      SumViews(Select(videos, VideoOwnedBy(me))) - videos[i].data.views
  {
    var own := VideoOwnedBy(me);
    var before, x, after := videos[..i], videos[i], videos[i + 1..];
    assert videos == (before + [x]) + after;
    assert RemoveAt(videos, i) == before + after;
    SelectAppend(before + [x], after, own);
    SelectAppend(before, [x], own);
    SelectAppend(before, after, own);
    assert [x][1..] == [];
    assert Select([x], own) == [x];
    SumViewsAppend(Select(before, own) + [x], Select(after, own));
    SumViewsAppend(Select(before, own), [x]);
    SumViewsAppend(Select(before, own), Select(after, own));
    assert SumViews([x]) == x.data.views;
  }

  /** `getChannelVideos`: the requester's videos, newest first. */
  function GetChannelVideos(videos: seq<Doc<Video>>, me: Id): (r: Completion<seq<Doc<Video>>>)
    ensures r.Wrote? && r.status == 200
    ensures NewestFirstOrder(r.data)
    ensures forall i :: 0 <= i < |r.data| ==> r.data[i] in videos && r.data[i].data.owner == Some(me)
    ensures forall i :: 0 <= i < |videos| && videos[i].data.owner == Some(me) ==> videos[i] in r.data
    ensures multiset(r.data) == multiset(Select(videos, VideoOwnedBy(me)))
  {
    var found := FindNewestFirst(videos, VideoOwnedBy(me));
    assert forall i :: 0 <= i < |videos| ==> (VideoOwnedBy(me)(videos[i]) <==> videos[i].data.owner == Some(me));
    Wrote(200, found)
  }
}
