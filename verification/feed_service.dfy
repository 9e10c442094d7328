/** The handlers as they run: on the posts table, the friend storage, the Redis connection and
    the broker, one command after the other. Each is proved to be one step of the model. */
module FeedService {
  import opened Options
  import opened Posts
  import opened Friends
  import opened RedisLists
  import opened FeedModel
  import opened FeedReads
  import opened Fanout
  import Dedup
  import FeedSafety
  import FeedEffects

  /** `SELECT * FROM posts WHERE id = $1` */
  function RowsWithId(rows: seq<Post>, id: Uuid): (r: seq<Post>)
    ensures forall p :: p in r <==> p in rows && p.id == id
  {
    if rows == [] then []
    else
      assert rows == [rows[0]] + rows[1..];
      (if rows[0].id == id then [rows[0]] else []) + RowsWithId(rows[1..], id)
  }

  lemma AffectedIff(rows: seq<Post>, id: Uuid)
    ensures RowsWithId(rows, id) != [] <==> exists r :: r in rows && r.id == id
  {
    var found := RowsWithId(rows, id);
    if found != [] {
      assert found[0] in found;
    }
  }

  /** The identifier is at position i and at no other. */
  ghost predicate OnlyAt(rows: seq<Post>, id: Uuid, i: int) {
    0 <= i < |rows| && rows[i].id == id && forall j | 0 <= j < |rows| && j != i :: rows[j].id != id
  }

  /** Exactly one position has the identifier, and its row is by the user. */
  ghost predicate OnlyRowIsBy(rows: seq<Post>, id: Uuid, user: Uuid) {
    exists i :: OnlyAt(rows, id, i) && rows[i].author == user
  }

  lemma OnlyAtNext(rows: seq<Post>, id: Uuid, i: int)
    requires rows != [] && rows[0].id != id
    ensures OnlyAt(rows, id, i) ==> OnlyAt(rows[1..], id, i - 1)
    ensures OnlyAt(rows[1..], id, i) ==> OnlyAt(rows, id, i + 1)
  {
    assert forall j | 0 <= j < |rows| - 1 :: rows[1..][j] == rows[j + 1];
    assert forall j | 0 < j < |rows| :: rows[j] == rows[1..][j - 1];
  }

  lemma {:induction false} SingleRowIff(rows: seq<Post>, id: Uuid, user: Uuid)
    ensures |RowsWithId(rows, id)| == 1 && RowsWithId(rows, id)[0].author == user <==> OnlyRowIsBy(rows, id, user)
    decreases |rows|
  {
    if rows == [] {
    } else if rows[0].id == id {
      AffectedIff(rows[1..], id);
      assert forall j | 0 < j < |rows| :: rows[j] in rows[1..];
      assert OnlyAt(rows, id, 0) <==> RowsWithId(rows[1..], id) == [];
    } else {
      SingleRowIff(rows[1..], id, user);
      forall i ensures OnlyAt(rows, id, i) <==> OnlyAt(rows[1..], id, i - 1) {
        OnlyAtNext(rows, id, i);
        OnlyAtNext(rows, id, i - 1);
      }
      if i :| OnlyAt(rows[1..], id, i) && rows[1..][i].author == user {
        assert OnlyAt(rows, id, i + 1) && rows[i + 1].author == user;
      }
    }
  }

  /** With distinct identifiers that is any row with the identifier by the user. */
  lemma OnlyRowIffUnique(rows: seq<Post>, id: Uuid, user: Uuid)
    requires UniqueIds(rows)
    ensures OnlyRowIsBy(rows, id, user) <==> exists p :: p in rows && p.id == id && p.author == user
  {
    if p :| p in rows && p.id == id && p.author == user {
      var i :| 0 <= i < |rows| && rows[i] == p;
      assert OnlyAt(rows, id, i);
    }
  }

  class FeedService {
    const onePost: bool
    const redis: RedisConnection
    const storage: PostgresFriendStorage
    const broker: Broker
    var posts: seq<Post>
    ghost var issued: map<Uuid, Uuid>

    ghost function Model(): State
      reads this, redis, storage, broker
    {
      State(posts, storage.rows, redis.lists, broker.feedQueue, issued)
    }

    ghost predicate Valid()
      reads this, redis, storage, broker
    {
      redis.Valid() && RowsIssued(Model())
    }

    constructor (onePost: bool, redis: RedisConnection, storage: PostgresFriendStorage, broker: Broker)
      requires redis.Valid()
      ensures Valid() && this.onePost == onePost
      ensures this.redis == redis && this.storage == storage && this.broker == broker
      ensures Model() == State([], storage.rows, redis.lists, broker.feedQueue, map[])
    {
      this.onePost, this.redis, this.storage, this.broker := onePost, redis, storage, broker;
      posts, issued := [], map[];
    }

    // ---- Post::get_feed ---------------------------------------------------------------------

    /** The RPUSH loop over the posts of a feed whose key is absent. */
    method Fill(user: Uuid, feed: array<Post>, n: nat)
      requires redis.Valid() && n <= feed.Length && user !in redis.lists
      modifies redis
      ensures redis.Valid()
      ensures redis.lists == Stored(old(redis.lists), user, Entries(feed[..n]))
    {
      ghost var before := redis.lists;
      var i := 0;
      while i < n
        invariant i <= n && redis.Valid()
        invariant redis.lists == Stored(before, user, Entries(feed[..i]))
        modifies redis
      {
        redis.RPush(user, Entry(feed[i], feed[i].id));
        assert Entries(feed[..i + 1]) == Entries(feed[..i]) + [Entry(feed[i], feed[i].id)];
        assert redis.lists == before[user := Entries(feed[..i + 1])];
        i := i + 1;
      }
    }

    /** The query of a miss, as a vector, deduplicated in place in the one-post mode. */
    method Query(user: Uuid) returns (feed: array<Post>, n: nat)
      ensures fresh(feed) && n <= feed.Length && feed[..n] == Fresh(onePost, Model(), user)
    {
      var rows := Selected(posts, Follows(storage.rows, user));
      feed := new Post[|rows|](i requires 0 <= i < |rows| => rows[i]);
      assert feed[..] == rows;
      n := feed.Length;
      assert feed[..n] == feed[..];
      if onePost {
        n := Dedup.DedupInPlace(feed);
      }
    }

    method ReadThrough(user: Uuid, feedOffset: nat, feedLimit: nat) returns (page: seq<Post>)
      requires Valid() && user !in redis.lists
      modifies redis
      ensures Valid() && Model() == Next(onePost, old(Model()), Read(user))
      ensures page == MissPage(Fresh(onePost, old(Model()), user), feedOffset, feedLimit)
    {
      var feed, n := Query(user);
      ghost var result := feed[..n];
      Fill(user, feed, n);
      if n < feedOffset {
        return [];
      }
      var last := Min(feedOffset + feedLimit, n);
      page := feed[feedOffset..last];
      assert page == result[feedOffset..last];
    }

    method ReadCached(user: Uuid, feedOffset: nat, feedLimit: nat) returns (page: seq<Post>)
      requires Valid() && user in redis.lists && feedOffset + feedLimit > 0
      ensures page == Range(PostsOf(redis.lists[user]), feedOffset, feedOffset + feedLimit - 1)
    {
      var values := redis.LRange(user, feedOffset, feedOffset + feedLimit - 1);
      page := PostsOf(values);
    }

    /** A miss queries, fills the list and cuts the page from the query's result; a hit ranges
        the list. The answer is the model's, and so is what is left in the cache. */
    method GetFeed(user: Uuid, offset: nat, limit: nat) returns (reply: Reply)
      requires Valid()
      modifies redis
      ensures Valid()
      ensures reply == Answer(onePost, old(Model()), user, offset, limit)
      ensures Model() == if offset >= TOO_LARGE || limit >= TOO_LARGE then old(Model())
                         else Next(onePost, old(Model()), Read(user))
      ensures reply.Page? <==>
                && offset < 0x8000_0000_0000_0000 && limit < 0x8000_0000_0000_0000
                && (user !in old(redis.lists) || offset + limit > 0)
      ensures reply.Page? ==>
                var feed, hit := Fresh(onePost, old(Model()), user), user in old(redis.lists);
                var n := if hit then |old(redis.lists)[user]| else |feed|;
                var o, l := if offset > 1000 then 1000 else offset, if limit > 1000 then 1000 else limit;
                && |reply.posts| == (if o >= n then 0 else if l <= n - o then l else n - o)
                && forall i | 0 <= i < |reply.posts| ::
                     reply.posts[i] == if hit then old(redis.lists)[user][o + i].post else feed[o + i]
    {
      AnswerIsPage(onePost, Model(), user, offset, limit);
      if offset >= TOO_LARGE || limit >= TOO_LARGE {
        return Panicked;
      }
      var feedOffset, feedLimit := Clamped(offset), Clamped(limit);
      var hasCachedResult := redis.Exists(user);
      if !hasCachedResult {
        var page := ReadThrough(user, feedOffset, feedLimit);
        reply := Page(page);
      } else if feedOffset + feedLimit == 0 {
        reply := Panicked;
      } else {
        var page := ReadCached(user, feedOffset, feedLimit);
        reply := Page(page);
      }
    }

    // ---- Post::create, update, delete -------------------------------------------------------

    /** One message to the feed queue, then one per row of the author's readers. */
    method PublishMessage(author: Uuid, e: Event)
      modifies broker
      ensures broker.feedQueue == old(broker.feedQueue) + [e]
      ensures broker.readerQueues == RoutedAll(old(broker.readerQueues), Followers(storage.rows, author), e)
      ensures EachReaderGets(old(broker.readerQueues), broker.readerQueues, storage.rows, author, e)
    {
      RoutedToReaders(broker.readerQueues, storage.rows, author, e);
      broker.PublishToFeed(e);
      ghost var before := broker.readerQueues;
      var users := storage.GetByFriendId(author);
      for i := 0 to |users|
        invariant broker.feedQueue == old(broker.feedQueue) + [e]
        invariant broker.readerQueues == RoutedAll(before, Users(users)[..i], e)
        modifies broker
      {
        broker.PublishToReader(users[i].user, e);
        assert Users(users)[..i + 1][..i] == Users(users)[..i];
      }
      assert Users(users)[..|users|] == Users(users);
    }

    method Create(post: Post, rowId: Uuid, now: int) returns (id: Uuid)
      requires Valid() && rowId !in issued
      modifies this, broker
      ensures Valid() && id == rowId
      ensures Model() == Next(onePost, old(Model()), Step.Create(post, rowId, now))
      ensures broker.readerQueues == RoutedAll(old(broker.readerQueues), Followers(storage.rows, post.author),
                                               Event(CREATED, rowId, post))
      ensures multiset(posts)
           == multiset(old(posts)) + multiset{Post(rowId, post.content, post.author, now, now)}
      ensures broker.feedQueue == old(broker.feedQueue) + [Event(CREATED, rowId, post)]
      ensures EachReaderGets(old(broker.readerQueues), broker.readerQueues, storage.rows, post.author,
                             Event(CREATED, rowId, post))
    {
      FeedEffects.CreateAddsRow(onePost, Model(), post, rowId, now);
      posts := [RowOf(post, rowId, now)] + posts;
      issued := issued[rowId := post.author];
      PublishMessage(post.author, Event(CREATED, rowId, post));
      id := rowId;
    }

    method Update(post: Post, now: int) returns (changed: bool)
      requires Valid() && post.id in issued && issued[post.id] == post.author
      modifies this`posts, broker
      ensures Valid()
      ensures changed <==> exists r :: r in old(posts) && r.id == post.id
      ensures Model() == Next(onePost, old(Model()), Step.Update(post, now))
      ensures broker.readerQueues == RoutedAll(old(broker.readerQueues), Followers(storage.rows, post.author),
                                               Event(UPDATED, post.id, post))
      ensures |posts| == |old(posts)|
      ensures forall i | 0 <= i < |posts| ::
                posts[i] == if old(posts)[i].id != post.id then old(posts)[i]
                            else Post(post.id, post.content, post.author, old(posts)[i].created, now)
      ensures broker.feedQueue == old(broker.feedQueue) + [Event(UPDATED, post.id, post)]
      ensures EachReaderGets(old(broker.readerQueues), broker.readerQueues, storage.rows, post.author,
                             Event(UPDATED, post.id, post))
    {
      FeedEffects.UpdateChangesRow(onePost, Model(), post, now);
      FeedSafety.UpdatedRowsKeepIssued(Model(), post, now);
      var affected := RowsWithId(posts, post.id);
      posts := UpdatedRows(posts, post, now);
      PublishMessage(post.author, Event(UPDATED, post.id, post));
      changed := 0 < |affected|;
      AffectedIff(old(posts), post.id);
    }

    method Delete(post: Post) returns (id: Uuid)
      requires Valid() && post.id in issued && issued[post.id] == post.author
      modifies this`posts, broker
      ensures Valid() && id == post.id
      ensures Model() == Next(onePost, old(Model()), Step.Delete(post))
      ensures broker.readerQueues == RoutedAll(old(broker.readerQueues), Followers(storage.rows, post.author),
                                               Event(DELETED, post.id, post))
      ensures forall p :: p in posts <==> p in old(posts) && p.id != post.id
      ensures forall p :: multiset(posts)[p] == if p.id == post.id then 0 else multiset(old(posts))[p]
      ensures UniqueIds(old(posts)) ==> UniqueIds(posts)
      ensures broker.feedQueue == old(broker.feedQueue) + [Event(DELETED, post.id, post)]
      ensures EachReaderGets(old(broker.readerQueues), broker.readerQueues, storage.rows, post.author,
                             Event(DELETED, post.id, post))
    {
      FeedEffects.DeleteRemovesRow(onePost, Model(), post);
      posts := RemainingRows(posts, post.id);
      PublishMessage(post.author, Event(DELETED, post.id, post));
      id := post.id;
    }

    // ---- post_update, post_delete -----------------------------------------------------------

    /** The row a handler may change: the only row with the identifier, if the user wrote it. */
    ghost predicate Owned(user: Uuid, id: Uuid)
      reads this
    {
      |RowsWithId(posts, id)| == 1 && RowsWithId(posts, id)[0].author == user
    }

    method PostUpdate(user: Uuid, id: Uuid, text: string, now: int) returns (ok: bool)
      requires Valid()
      modifies this`posts, broker
      ensures Valid()
      ensures ok <==> old(Owned(user, id))
      ensures ok ==> Model() == Next(onePost, old(Model()),
                                     Step.Update(old(RowsWithId(posts, id)[0]).(content := text), now))
      ensures !ok ==> Model() == old(Model()) && broker.readerQueues == old(broker.readerQueues)
      ensures ok <==> OnlyRowIsBy(old(posts), id, user)
      ensures UniqueIds(old(posts)) ==>
                (ok <==> exists p :: p in old(posts) && p.id == id && p.author == user)
      ensures ok ==> |posts| == |old(posts)| && forall i | 0 <= i < |posts| ::
                posts[i] == if old(posts)[i].id != id then old(posts)[i]
                            else Post(id, text, user, old(posts)[i].created, now)
    {
      SingleRowIff(posts, id, user);
      if UniqueIds(posts) { OnlyRowIffUnique(posts, id, user); }
      var found := RowsWithId(posts, id);
      if |found| != 1 {
        return false;
      }
      var post := found[0];
      assert post in found;
      if user != post.author {
        return false;
      }
      var _ := Update(post.(content := text), now);
      ok := true;
    }

    method PostDelete(user: Uuid, id: Uuid) returns (ok: bool)
      requires Valid()
      modifies this`posts, broker
      ensures Valid()
      ensures ok <==> old(Owned(user, id))
      ensures ok ==> Model() == Next(onePost, old(Model()), Step.Delete(old(RowsWithId(posts, id)[0])))
      ensures !ok ==> Model() == old(Model()) && broker.readerQueues == old(broker.readerQueues)
      ensures ok <==> OnlyRowIsBy(old(posts), id, user)
      ensures UniqueIds(old(posts)) ==>
                (ok <==> exists p :: p in old(posts) && p.id == id && p.author == user)
      ensures ok ==> forall p :: p in posts <==> p in old(posts) && p.id != id
      ensures ok ==> forall p :: multiset(posts)[p] == if p.id == id then 0 else multiset(old(posts))[p]
      ensures UniqueIds(old(posts)) ==> UniqueIds(posts)
    {
      SingleRowIff(posts, id, user);
      if UniqueIds(posts) { OnlyRowIffUnique(posts, id, user); }
      var found := RowsWithId(posts, id);
      if |found| != 1 {
        return false;
      }
      var post := found[0];
      assert post in found;
      if user != post.author {
        return false;
      }
      var _ := Delete(post);
      ok := true;
    }

    // ---- FeedConsumer::consume --------------------------------------------------------------

    method DropLists(users: seq<Friend>)
      requires redis.Valid()
      modifies redis
      ensures redis.Valid() && redis.lists == Dropped(old(redis.lists), Users(users))
    {
      ghost var before := redis.lists;
      for i := 0 to |users|
        invariant redis.Valid() && redis.lists == Dropped(before, Users(users)[..i])
        modifies redis
      {
        redis.Del(users[i].user);
        DroppedNext(before, Users(users), i);
      }
      assert Users(users)[..|users|] == Users(users);
    }

    method PushToLists(users: seq<Friend>, e: Entry)
      requires redis.Valid()
      modifies redis
      ensures redis.Valid() && redis.lists == PushedAll(old(redis.lists), Users(users), e)
    {
      ghost var before := redis.lists;
      for i := 0 to |users|
        invariant redis.Valid() && redis.lists == PushedAll(before, Users(users)[..i], e)
        modifies redis
      {
        redis.LPush(users[i].user, e);
        redis.LTrim(users[i].user, 0, FEED_LENGTH);
        assert Users(users)[..i + 1][..i] == Users(users)[..i];
      }
      assert Users(users)[..|users|] == Users(users);
    }

    /** The message at `index` is handled to its end. The acknowledgement comes last; without
        one (`noAck`) the broker lets go of the message when it hands it over. */
    method Consume(index: nat, noAck: bool)
      requires Valid() && index < |broker.feedQueue|
      modifies redis, broker
      ensures Valid()
      ensures Model() == Next(onePost, old(Model()), Deliver(index, true))
      ensures broker.readerQueues == old(broker.readerQueues)
      ensures broker.feedQueue == old(broker.feedQueue)[..index] + old(broker.feedQueue)[index + 1..]
      ensures var e := old(broker.feedQueue)[index];
              forall u :: FeedEffects.Handled(onePost, e, |PairRows(storage.rows, u, e.post.author)|,
                                              old(redis.lists), redis.lists, u)
    {
      ghost var before := Model();
      forall u ensures FeedEffects.Handled(
          onePost, before.queue[index], |PairRows(storage.rows, u, before.queue[index].post.author)|,
          before.cache, Next(onePost, before, Deliver(index, true)).cache, u)
      {
        FeedEffects.DeliverChangesList(onePost, before, index, true, u);
      }
      var message := broker.feedQueue[index];
      if noAck {
        broker.Ack(index);
      }
      var readers := storage.GetByFriendId(message.post.author);
      match message.kind {
        case CREATED =>
          if onePost {
            DropLists(readers);
          } else {
            PushToLists(readers, Entry(message.post, message.postId));
          }
        case UPDATED =>
          DropLists(readers);
        case DELETED =>
          DropLists(readers);
      }
      if !noAck {
        broker.Ack(index);
      }
    }

    // ---- friend_set, friend_delete ----------------------------------------------------------

    method CacheInvalidateByFriendUserId(user: Uuid)
      requires redis.Valid()
      modifies redis
      ensures redis.Valid()
      ensures redis.lists == old(redis.lists) - (Follows(storage.rows, user) + {user})
    {
      ghost var before := redis.lists;
      var friends := storage.GetByUserId(user);
      ghost var names := Names(friends);
      for i := 0 to |friends|
        invariant redis.Valid() && redis.lists == Dropped(before, names[..i])
        modifies redis
      {
        redis.Del(friends[i].friend);
        DroppedNext(before, names, i);
      }
      redis.Del(user);
      assert names[..|friends|] == names;
      NamesAreFollows(storage.rows, user);
    }

    method FriendSet(row: Friend) returns (ok: bool)
      requires Valid()
      modifies redis, storage
      ensures Valid()
      ensures ok <==> |PairRows(old(storage.rows), row.user, row.friend)| != 1
      ensures Model() == Next(onePost, old(Model()), Step.FriendSet(row))
      ensures multiset(storage.rows) == multiset(old(storage.rows)) + (if ok then multiset{row} else multiset{})
      ensures forall u, a :: |PairRows(storage.rows, u, a)| == |PairRows(old(storage.rows), u, a)|
                             + (if ok && u == row.user && a == row.friend then 1 else 0)
      ensures FeedEffects.ListsLeft(old(redis.lists), redis.lists, old(storage.rows), row.user, ok)
    {
      FeedEffects.FriendSetAddsRow(onePost, Model(), row);
      FeedEffects.FriendChangeTakesLists(onePost, Model(), Step.FriendSet(row));
      var isPersistant := storage.IsPersistant(row);
      if isPersistant {
        return false;
      }
      CacheInvalidateByFriendUserId(row.user);
      var _ := storage.Create(row);
      ok := true;
    }

    method FriendDelete(user: Uuid, friend: Uuid) returns (ok: bool)
      requires Valid()
      modifies redis, storage
      ensures Valid()
      ensures ok <==> |PairRows(old(storage.rows), user, friend)| == 1
      ensures Model() == Next(onePost, old(Model()), Step.FriendDelete(user, friend))
      ensures forall f :: multiset(storage.rows)[f] ==
                if ok && f.user == user && f.friend == friend then 0 else multiset(old(storage.rows))[f]
      ensures forall u, a :: |PairRows(storage.rows, u, a)| ==
                if ok && u == user && a == friend then 0 else |PairRows(old(storage.rows), u, a)|
      ensures FeedEffects.ListsLeft(old(redis.lists), redis.lists, old(storage.rows), user, ok)
    {
      FeedEffects.FriendDeleteRemovesRow(onePost, Model(), user, friend);
      FeedEffects.FriendChangeTakesLists(onePost, Model(), Step.FriendDelete(user, friend));
      var found := storage.GetByUserIdAndFriendId(user, friend);
      match found {
        case Some(row) =>
          CacheInvalidateByFriendUserId(row.user);
          storage.Delete(row);
          ok := true;
        case None =>
          ok := false;
      }
    }
  }

  /** Every queue keeps what it held and gets the event once per row of the pair; none appears or
      disappears. */
  ghost predicate EachReaderGets(before: Queues, after: Queues, friends: seq<Friend>, author: Uuid, e: Event) {
    && after.Keys == before.Keys
    && forall k | k in before ::
         && |after[k]| == |before[k]| + |PairRows(friends, k, author)| && after[k][..|before[k]|] == before[k]
         && forall i | |before[k]| <= i < |after[k]| :: after[k][i] == e
  }

  lemma RoutedToReaders(queues: Queues, friends: seq<Friend>, author: Uuid, e: Event)
    ensures EachReaderGets(queues, RoutedAll(queues, Followers(friends, author), e), friends, author, e)
  {
    RoutedAllCounts(queues, Followers(friends, author), e, author);
    forall k | k in queues
      ensures var after := RoutedAll(queues, Followers(friends, author), e);
              k in after && after[k] == queues[k] + Copies(e, |PairRows(friends, k, author)|)
    {
      RoutedAllCounts(queues, Followers(friends, author), e, k);
      FollowersCountPairs(friends, k, author);
    }
  }

  lemma DroppedNext(before: Lists, users: seq<Uuid>, i: nat)
    requires i < |users|
    ensures Dropped(before, users[..i]) - {users[i]} == Dropped(before, users[..i + 1])
  {
    assert users[..i + 1] == users[..i] + [users[i]];
    var upTo, next := users[..i], users[..i + 1];
    assert (set u | u in next) == (set u | u in upTo) + {users[i]};
  }
}
