/** The subscription handlers: toggling the requester's subscription to a
    channel, and the two listings. The module as written names `Subscription`
    as a named import that its model file does not export; the handlers are
    modelled as if that import resolved. */
module SubscriptionController {
  import opened Common
  import opened ApiErrors
  import opened AsyncHandler
  import opened Store
  import opened SubscriptionModel
  import opened Toggles

  /** The filter `{ subscriber, channel }`. */
  function PairIs(subscriber: Id, channel: Id): Doc<Subscription> -> bool
  {
    (d: Doc<Subscription>) => d.data.subscriber == Some(subscriber) && d.data.channel == Some(channel)
  }

  /** The filter `{ channel }`. */
  function ChannelIs(channel: Id): Doc<Subscription> -> bool
  {
    (d: Doc<Subscription>) => d.data.channel == Some(channel)
  }

  /** The filter `{ subscriber }`. */
  function SubscriberIs(subscriber: Id): Doc<Subscription> -> bool
  {
    (d: Doc<Subscription>) => d.data.subscriber == Some(subscriber)
  }

  /** No (subscriber, channel) pair is stored twice. */
  ghost predicate UniquePairs(subs: seq<Doc<Subscription>>)
  {
    forall u: Id, c: Id :: AtMostOne(subs, PairIs(u, c))
  }

  /** The subscription the handler creates. */
  function NewSubscription(me: Id, channel: Id, id: Id, now: Time): (d: Doc<Subscription>)
    ensures SubscriptionValid(d.data) && PairIs(me, channel)(d)
  {
    Fresh(id, now, Subscription(Some(me), Some(channel)))
  }

  /** `toggleSubscription`. The reply carries the new subscription when one
      was created. */
  method ToggleSubscription(db: Db, me: Id, channelId: Id, isValidObjectId: Id -> bool, now: Time)
    returns (r: Completion<Option<Doc<Subscription>>>)
    requires db.Valid()
    modifies db
    ensures db.Valid()
    ensures !isValidObjectId(channelId) ==>
      r == Threw(Api(400, "Invalid channel ID")) && db.State() == old(db.State())
    ensures isValidObjectId(channelId) ==>
      var made := NewSubscription(me, channelId, old(db.nextId), now);
      var (after, created) := Toggle(old(db.subscriptions), PairIs(me, channelId), made);
      && (created ==> (r == Wrote(201, Some(made)) &&
            db.State() == old(db.State()).(subscriptions := after, nextId := old(db.nextId) + 1)))
      && (!created ==> (r == Wrote(200, None) &&
            db.State() == old(db.State()).(subscriptions := after)))
  {
    if !isValidObjectId(channelId) {
      r := Threw(Api(400, "Invalid channel ID"));
      return;
    }
    var existing := FindFirst(db.subscriptions, PairIs(me, channelId));
    if existing.Some? {
      WellKeyedRemove(db.subscriptions, db.nextId, existing.value);
      db.subscriptions := RemoveAt(db.subscriptions, existing.value);
      r := Wrote(200, None);
    } else {
      var saved := db.CreateSubscription(Subscription(Some(me), Some(channelId)), now);
      r := Wrote(201, saved);
    }
  }

  /** A toggle keeps every pair unique: the toggled pair by the toggle itself,
      every other pair because the new subscription is not of that pair. */
  lemma ToggleKeepsPairsUnique(subs: seq<Doc<Subscription>>, me: Id, channel: Id, made: Doc<Subscription>)
    requires UniquePairs(subs) && PairIs(me, channel)(made)
    ensures UniquePairs(Toggle(subs, PairIs(me, channel), made).0)
  {
    forall u: Id, c: Id ensures AtMostOne(Toggle(subs, PairIs(me, channel), made).0, PairIs(u, c)) {
      assert AtMostOne(subs, PairIs(u, c));
      if u == me && c == channel {
        ToggleKeepsAtMostOne(subs, PairIs(me, channel), made);
      } else {
        ToggleKeepsAtMostOneOther(subs, PairIs(me, channel), made, PairIs(u, c));
      }
    }
  }

  /** Subscribing and then unsubscribing gives the very same collection
      back, and unsubscribing and then subscribing again restores the same
      pairs (the subscription comes back last, under a new id). */
  lemma ToggleTwice(subs: seq<Doc<Subscription>>, me: Id, channel: Id, made: Doc<Subscription>, remade: Doc<Subscription>)
    requires UniquePairs(subs) && PairIs(me, channel)(made) && PairIs(me, channel)(remade)
    ensures FindFirst(subs, PairIs(me, channel)).None? ==>
      Toggle(Toggle(subs, PairIs(me, channel), made).0, PairIs(me, channel), remade).0 == subs
    ensures FindFirst(subs, PairIs(me, channel)).Some? && remade.data == made.data ==>
      multiset(Contents(Toggle(Toggle(subs, PairIs(me, channel), made).0, PairIs(me, channel), remade).0))
        == multiset(Contents(subs))
  {
    var key := PairIs(me, channel);
    if FindFirst(subs, key).None? {
      ToggleTwiceFromAbsent(subs, key, made, remade);
    } else {
      var k := FindFirst(subs, key).value;
      assert AtMostOne(subs, key);
      assert subs[k].data == remade.data;
      ToggleTwiceFromPresent(subs, key, made, remade);
    }
  }

  /** `getUserChannelSubscribers` (without the population and projection):
      every subscription to the channel, in natural order. */
  function GetUserChannelSubscribers(subs: seq<Doc<Subscription>>, channelId: Id, isValidObjectId: Id -> bool)
    : (r: Completion<seq<Doc<Subscription>>>)
    ensures !isValidObjectId(channelId) ==> r == Threw(Api(400, "Invalid channel ID"))
    ensures isValidObjectId(channelId) ==> r.Wrote? && r.status == 200
    ensures r.Wrote? ==>
      && |r.data| == |Select(subs, ChannelIs(channelId))|
      && (forall i :: 0 <= i < |r.data| ==> r.data[i] in subs && r.data[i].data.channel == Some(channelId))
      && (forall i :: 0 <= i < |subs| && subs[i].data.channel == Some(channelId) ==> subs[i] in r.data)
      && multiset(r.data) == multiset(Select(subs, ChannelIs(channelId)))
  {
    if !isValidObjectId(channelId) then Threw(Api(400, "Invalid channel ID"))
    else
      var found := Select(subs, ChannelIs(channelId));
      assert forall i :: 0 <= i < |found| ==> ChannelIs(channelId)(found[i]);
      assert forall i :: 0 <= i < |subs| ==> (ChannelIs(channelId)(subs[i]) <==> subs[i].data.channel == Some(channelId));
      Wrote(200, found)
  }

  /** `getSubscribedChannels` (without the population and projection): every
      subscription of the subscriber, in natural order. */
  function GetSubscribedChannels(subs: seq<Doc<Subscription>>, subscriberId: Id, isValidObjectId: Id -> bool)
    : (r: Completion<seq<Doc<Subscription>>>)
    ensures !isValidObjectId(subscriberId) ==> r == Threw(Api(400, "Invalid subscriber ID"))
    ensures isValidObjectId(subscriberId) ==> r.Wrote? && r.status == 200
    ensures r.Wrote? ==>
      && (forall i :: 0 <= i < |r.data| ==> r.data[i] in subs && r.data[i].data.subscriber == Some(subscriberId))
      && (forall i :: 0 <= i < |subs| && subs[i].data.subscriber == Some(subscriberId) ==> subs[i] in r.data)
      && multiset(r.data) == multiset(Select(subs, SubscriberIs(subscriberId)))
  {
    if !isValidObjectId(subscriberId) then Threw(Api(400, "Invalid subscriber ID"))
    else
      var found := Select(subs, SubscriberIs(subscriberId));
      assert forall i :: 0 <= i < |found| ==> SubscriberIs(subscriberId)(found[i]);
      assert forall i :: 0 <= i < |subs| ==>
        (SubscriberIs(subscriberId)(subs[i]) <==> subs[i].data.subscriber == Some(subscriberId));
      Wrote(200, found)
  }
}
