/** The `Subscription` schema: a required subscriber and channel. Nothing in
    the schema makes a (subscriber, channel) pair unique. */
module SubscriptionModel {
  import opened Common

  datatype Subscription = Subscription(subscriber: Option<Id>, channel: Option<Id>)

  /** The required validators. */
  predicate SubscriptionValid(s: Subscription)
  {
    s.subscriber.Some? && s.channel.Some?
  }

  /** Validation looks at one document at a time, so any number of
      documents for the same pair all pass it. */
  lemma NoPairUniqueness(subscriber: Id, channel: Id, n: nat)
    ensures var s := seq(n, i => Subscription(Some(subscriber), Some(channel)));
      |s| == n && forall i :: 0 <= i < n ==> SubscriptionValid(s[i])
  {
  }
}
