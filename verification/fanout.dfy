/** Publication of a post event: to the shared feed queue, and to the queue of every connected
    reader of the author, one message per row of the friend relation. */
module Fanout {
  import opened Options
  import opened Posts
  import opened Friends
  import opened FeedModel

  type Queues = map<Uuid, seq<Event>>

  /** A direct exchange: the message goes to the queue bound with this key, if there is one
      (AMQP 0-9-1, section 3.1.3.1). Every connected user's queue is bound with the user's key. */
  function Routed(queues: Queues, key: Uuid, e: Event): Queues {
    if key in queues then queues[key := queues[key] + [e]] else queues
  }

  function RoutedAll(queues: Queues, keys: seq<Uuid>, e: Event): Queues {
    if keys == [] then queues
    else Routed(RoutedAll(queues, keys[..|keys| - 1], e), keys[|keys| - 1], e)
  }

  /** A queue receives as many copies as its key occurs, after what it held; no queue appears
      or disappears. */
  lemma {:induction false} RoutedAllCounts(queues: Queues, keys: seq<Uuid>, e: Event, k: Uuid)
    ensures RoutedAll(queues, keys, e).Keys == queues.Keys
    ensures k in queues ==> RoutedAll(queues, keys, e)[k] == queues[k] + Copies(e, multiset(keys)[k])
  {
    if keys == [] {
      assert k in queues ==> queues[k] + Copies(e, 0) == queues[k];
    } else {
      var last, front := keys[|keys| - 1], keys[..|keys| - 1];
      assert keys == front + [last];
      RoutedAllCounts(queues, front, e, k);
      if k in queues && k == last {
        var counts: multiset<Uuid> := multiset(front);
        var n: nat := counts[k];
        assert queues[k] + Copies(e, n) + [e] == queues[k] + Copies(e, n + 1);
      }
    }
  }

  /** With unique friend pairs the queue of every connected reader of the author receives the
      event exactly once, and no other user's queue receives anything. */
  lemma ExactFanOut(queues: Queues, friends: seq<Friend>, e: Event, user: Uuid)
    requires UniquePairs(friends) && user in queues
    ensures var after := RoutedAll(queues, Followers(friends, e.post.author), e);
            user in after && after[user] ==
              queues[user] + (if e.post.author in Follows(friends, user) then [e] else [])
  {
    var keys := Followers(friends, e.post.author);
    RoutedAllCounts(queues, keys, e, user);
    FollowersCountPairs(friends, user, e.post.author);
    FollowersAreReaders(friends, user, e.post.author);
    assert |PairRows(friends, user, e.post.author)| <= 1;
    assert user in keys <==> user in multiset(keys);
    assert Copies(e, 0) == [] && Copies(e, 1) == [e];
  }

  class Broker {
    var feedQueue: seq<Event>
    var readerQueues: Queues

    constructor ()
      ensures feedQueue == [] && readerQueues == map[]
    {
      feedQueue, readerQueues := [], map[];
    }

    method PublishToFeed(e: Event)
      modifies this
      ensures feedQueue == old(feedQueue) + [e] && readerQueues == old(readerQueues)
    {
      feedQueue := feedQueue + [e];
    }

    method PublishToReader(key: Uuid, e: Event)
      modifies this
      ensures readerQueues == Routed(old(readerQueues), key, e) && feedQueue == old(feedQueue)
    {
      readerQueues := Routed(readerQueues, key, e);
    }

    /** The consumer's acknowledgement of the message at a position of the feed queue. */
    method Ack(index: nat)
      requires index < |feedQueue|
      modifies this
      ensures feedQueue == Removed(old(feedQueue), index) && readerQueues == old(readerQueues)
    {
      feedQueue := Removed(feedQueue, index);
    }
  }
}
