/** The subscription handlers (src/controllers/subscription.controllers.js),
    over the Subscription collection: (subscriber, channel) records in
    insertion order. */
module Subscriptions {

  import opened Common
  import opened Seqs
  import opened Store

  /** `Subscription.find({channel})`: the records naming the channel, in collection order. */
  function SubscribersOf(subs: seq<Subscription>, channel: Id): (r: seq<Subscription>)
    ensures forall s :: s in r <==> s in subs && s.channel == channel
  {
    Filter(subs, (s: Subscription) => s.channel == channel)
  }

  /** `Subscription.find({subscriber})`: the records naming the subscriber, in collection order. */
  function SubscriptionsBy(subs: seq<Subscription>, subscriber: Id): (r: seq<Subscription>)
    ensures forall s :: s in r <==> s in subs && s.subscriber == subscriber
  {
    Filter(subs, (s: Subscription) => s.subscriber == subscriber)
  }

  /** The self-subscription test of subscribeToChannel as written: the
      request string against the requester's id string, before any cast. */
  predicate SelfRequestAsWritten(me: Id, channelId: string) {
    channelId == me
  }

  /** As written, the requester's own id spelt in capitals passes the test;
      the record then stored, after Mongoose casts the channel id, pairs the
      requester with itself. */
  lemma {:induction false} SelfPairAsWritten()
    ensures var me := seq(24, i => 'a'); var channelId := seq(24, i => 'A');
            && ValidId(me) && IsObjectIdString(channelId)
            && !SelfRequestAsWritten(me, channelId)
            && Subscription(me, Cast(channelId)) == Subscription(me, me)
  {
    var me := seq(24, i => 'a');
    var channelId := seq(24, i => 'A');
    assert forall i :: 0 <= i < |channelId| ==> LowerChar(channelId[i]) == 'a';
    assert channelId[0] != me[0];
    assert Cast(channelId) == me;
  }

  /** The self-subscription test as intended: the requested channel, cast to
      an ObjectId, is the requester. */
  predicate SelfRequest(me: Id, channelId: string)
    requires IsObjectIdString(channelId)
  {
    Cast(channelId) == me
  }

  /** The intended test refuses whatever the test as written refuses, agrees
      with it on canonical ids, and lets through only channels other than
      the requester. */
  lemma {:induction false} SelfRequestCorrects(me: Id, channelId: string)
    requires ValidId(me) && IsObjectIdString(channelId)
    ensures SelfRequestAsWritten(me, channelId) ==> SelfRequest(me, channelId)
    ensures ValidId(channelId) ==> (SelfRequest(me, channelId) <==> SelfRequestAsWritten(me, channelId))
    ensures !SelfRequest(me, channelId) ==> Subscription(me, Cast(channelId)).channel != me
  {
    if SelfRequestAsWritten(me, channelId) {
      CanonicalIdAccepted(me);
    }
  }

  /** subscribeToChannel: malformed id (400), the requester's own channel in
      any spelling (400, the intended test; see SelfRequestAsWritten), unknown
      channel (404), already subscribed (400); otherwise exactly one record
      (requester, cast channel id) is added. */
  method SubscribeToChannel(db: Database, me: Id, channelId: string) returns (r: Response<()>)
    requires db.Valid()
    modifies db`subscriptions
    ensures db.Valid()
    ensures !IsObjectIdString(channelId) ==> r == Error(400, "Invalid channel ID")
    ensures IsObjectIdString(channelId) && SelfRequest(me, channelId) ==>
              r == Error(400, "You cannot subscribe to yourself")
    ensures IsObjectIdString(channelId) && !SelfRequest(me, channelId) && Cast(channelId) !in db.users ==>
              r == Error(404, "Channel not found")
    ensures IsObjectIdString(channelId) && !SelfRequest(me, channelId) && Cast(channelId) in db.users
            && Subscription(me, Cast(channelId)) in old(db.subscriptions) ==>
              r == Error(400, "You are already subscribed to this channel")
    ensures r.Error? ==> db.subscriptions == old(db.subscriptions)
    ensures r.Ok? <==> IsObjectIdString(channelId) && !SelfRequest(me, channelId) && Cast(channelId) in db.users
                       && Subscription(me, Cast(channelId)) !in old(db.subscriptions)
    ensures r.Ok? ==> r.code == 200
                      && db.subscriptions == old(db.subscriptions) + [Subscription(me, Cast(channelId))]
  {
    if !IsObjectIdString(channelId) {
      return Error(400, "Invalid channel ID");
    }
    if SelfRequest(me, channelId) {
      return Error(400, "You cannot subscribe to yourself");
    }
    var channel := Cast(channelId);
    if channel !in db.users {
      return Error(404, "Channel not found");
    }
    var pair := Subscription(me, channel);
    if IndexOf(db.subscriptions, pair).Some? {
      return Error(400, "You are already subscribed to this channel");
    }
    SubscribeKeepsInvariant(db.subscriptions, pair);
    db.subscriptions := db.subscriptions + [pair];
    r := Ok(200, ());
  }

  /** unsubscribeFromChannel: malformed id (400), no such subscription (400);
      otherwise the (requester, channel) record is deleted and nothing else. */
  method UnsubscribeFromChannel(db: Database, me: Id, channelId: Id) returns (r: Response<()>)
    requires db.Valid()
    modifies db`subscriptions
    ensures db.Valid()
    ensures !ValidId(channelId) ==> r == Error(400, "Invalid channel ID")
    ensures ValidId(channelId) && Subscription(me, channelId) !in old(db.subscriptions) ==>
              r == Error(400, "You are not subscribed to this channel")
    ensures r.Error? ==> db.subscriptions == old(db.subscriptions)
    ensures r.Ok? <==> ValidId(channelId) && Subscription(me, channelId) in old(db.subscriptions)
    ensures r.Ok? ==> r.code == 200
                      && db.subscriptions == RemoveAll(old(db.subscriptions), Subscription(me, channelId))
  {
    if !ValidId(channelId) {
      return Error(400, "Invalid channel ID");
    }
    var pair := Subscription(me, channelId);
    var found := IndexOf(db.subscriptions, pair);
    if found.None? {
      return Error(400, "You are not subscribed to this channel");
    }
    RemoveAtIsRemoveAll(db.subscriptions, pair);
    UnsubscribeKeepsInvariant(db.subscriptions, found.value);
    db.subscriptions := RemoveAt(db.subscriptions, found.value);
    r := Ok(200, ());
  }

  /** getSubscribedChannels: the requester's subscription records. */
  method GetSubscribedChannels(db: Database, me: Id) returns (r: Response<seq<Subscription>>)
    ensures r.Ok? && r.code == 200 && r.value == SubscriptionsBy(db.subscriptions, me)
    ensures forall s :: s in r.value <==> s in db.subscriptions && s.subscriber == me
  {
    r := Ok(200, SubscriptionsBy(db.subscriptions, me));
  }

  /** getChannelSubscribers: 400 for a malformed id, otherwise the channel's
      subscription records. */
  method GetChannelSubscribers(db: Database, channelId: Id) returns (r: Response<seq<Subscription>>)
    ensures !ValidId(channelId) ==> r == Error(400, "Invalid channel ID")
    ensures ValidId(channelId) ==> r.Ok? && r.code == 200 && r.value == SubscribersOf(db.subscriptions, channelId)
    ensures r.Ok? ==> forall s :: s in r.value <==> s in db.subscriptions && s.channel == channelId
  {
    if !ValidId(channelId) {
      return Error(400, "Invalid channel ID");
    }
    r := Ok(200, SubscribersOf(db.subscriptions, channelId));
  }

  /** isSubscribed: 400 for a malformed id, otherwise the matching record or
      null; an absent subscription is an answer, not an error. */
  method IsSubscribed(db: Database, me: Id, channelId: Id) returns (r: Response<Option<Subscription>>)
    ensures !ValidId(channelId) ==> r == Error(400, "Invalid channel ID")
    ensures ValidId(channelId) ==> r.Ok? && r.code == 200
    ensures r.Ok? ==> (r.value == Some(Subscription(me, channelId)) <==> Subscription(me, channelId) in db.subscriptions)
    ensures r.Ok? ==> (r.value == None <==> Subscription(me, channelId) !in db.subscriptions)
  {
    if !ValidId(channelId) {
      return Error(400, "Invalid channel ID");
    }
    var found := IndexOf(db.subscriptions, Subscription(me, channelId));
    r := Ok(200, if found.Some? then Some(db.subscriptions[found.value]) else None);
  }

  /** Adding a new, non-self pair keeps the collection free of self-subscriptions and repeats. */
  lemma {:induction false} SubscribeKeepsInvariant(subs: seq<Subscription>, pair: Subscription)
    requires SubscriptionsOk(subs) && pair.subscriber != pair.channel && pair !in subs
    ensures SubscriptionsOk(subs + [pair])
  {
    var t := subs + [pair];
    forall i, j | 0 <= i < j < |t| ensures t[i] != t[j] {
      if j == |subs| {
        assert t[i] in subs;
      }
    }
  }

  /** Deleting a record keeps the collection free of self-subscriptions and repeats. */
  lemma {:induction false} UnsubscribeKeepsInvariant(subs: seq<Subscription>, i: nat)
    requires SubscriptionsOk(subs) && i < |subs|
    ensures SubscriptionsOk(RemoveAt(subs, i))
  {
    var t := RemoveAt(subs, i);
    assert t == subs[..i] + subs[i + 1..];
    forall k | 0 <= k < |t| ensures t[k].subscriber != t[k].channel {
      assert t[k] == subs[if k < i then k else k + 1];
    }
  }

  /** Subscribing and then unsubscribing restores the collection exactly. */
  lemma {:induction false} UnsubscribeUndoesSubscribe(subs: seq<Subscription>, pair: Subscription)
    requires pair !in subs
    ensures RemoveAll(subs + [pair], pair) == subs
  {
    RemoveAllUndoesAppend(subs, pair);
  }

  /** A subscription raises its channel's subscriber count by one and leaves
      every other channel's count alone. */
  lemma {:induction false} SubscribeCounts(subs: seq<Subscription>, pair: Subscription, channel: Id)
    ensures |SubscribersOf(subs + [pair], channel)|
            == |SubscribersOf(subs, channel)| + (if pair.channel == channel then 1 else 0)
  {
    FilterAppendLength(subs, pair, (s: Subscription) => s.channel == channel);
  }

  /** In a collection the handlers maintained, a channel's subscriber records
      name distinct subscribers, never the channel itself. */
  lemma {:induction false} SubscribersAreDistinctOthers(subs: seq<Subscription>, channel: Id)
    requires SubscriptionsOk(subs)
    ensures Distinct(SubscribersOf(subs, channel))
    ensures forall s :: s in SubscribersOf(subs, channel) ==> s.subscriber != channel
  {
    FilterDistinct(subs, (s: Subscription) => s.channel == channel);
    forall s | s in SubscribersOf(subs, channel) ensures s.subscriber != channel {
      var i :| 0 <= i < |subs| && subs[i] == s;
    }
  }
}
