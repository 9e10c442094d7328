/** What each step of the feed protocol does, told by the number of rows, the elements of lists
    and the messages of the queue, and not by the functions that the steps are made of. */
module FeedEffects {
  import opened Options
  import opened Posts
  import opened Friends
  import opened RedisLists
  import opened FeedModel
  import opened FeedSafety
  import Dedup
  import FeedOnePost
  import FeedDefault

  // ---- the query --------------------------------------------------------------------------

  ghost predicate Reads(friends: seq<Friend>, user: Uuid, author: Uuid) {
    exists f :: f in friends && f.user == user && f.friend == author
  }

  lemma {:induction false} PrefixCounts<T>(a: seq<T>, n: nat, x: T)
    requires n <= |a|
    ensures multiset(a[..n])[x] <= multiset(a)[x]
    ensures multiset(a[..n])[x] < multiset(a)[x] ==> exists i :: n <= i < |a| && a[i] == x
  {
    assert a == a[..n] + a[n..];
    if multiset(a[..n])[x] < multiset(a)[x] {
      assert x in multiset(a[n..]);
      var k :| 0 <= k < |a[n..]| && a[n..][k] == x;
      assert a[n + k] == x;
    }
  }

  /** The feed in the default mode: rows by authors the user reads, each at most as often as it is
      stored, latest first, at most 1000; and a row by these authors that does not make it finds
      1000 others that are not older. */
  lemma FeedIsLatestThousand(s: State, user: Uuid)
    ensures var r := Fresh(false, s, user);
            && |r| <= 1000
            && (forall i, j | 0 <= i < j < |r| :: r[i].updated >= r[j].updated)
            && (forall p | p in r :: Reads(s.friends, user, p.author))
            && (forall p :: multiset(r)[p] <= multiset(s.rows)[p])
            && (forall p: Post | Reads(s.friends, user, p.author) && multiset(r)[p] < multiset(s.rows)[p] ::
                  |r| == 1000 && forall q | q in r :: q.updated >= p.updated)
  {
    var authors := Follows(s.friends, user);
    var c := ByAuthors(s.rows, authors);
    var o := OrderByUpdatedDesc(c);
    var r := Fresh(false, s, user);
    OrderKeepsRows(c);
    OrderIsNewestFirst(c);
    SelectedIsNewestByAuthors(s.rows, authors);
    assert r == o[..|r|];
    forall p
      ensures multiset(r)[p] <= multiset(s.rows)[p]
      ensures Reads(s.friends, user, p.author) && multiset(r)[p] < multiset(s.rows)[p] ==>
                |r| == 1000 && forall q | q in r :: q.updated >= p.updated
    {
      ByAuthorsCounts(s.rows, authors, p);
      PrefixCounts(o, |r|, p);
      if Reads(s.friends, user, p.author) && multiset(r)[p] < multiset(s.rows)[p] {
        LeftOutIsLast(o, |r|, p);
      }
    }
  }

  lemma LeftOutIsLast(o: seq<Post>, n: nat, p: Post)
    requires NewestFirst(o) && n <= |o| && multiset(o[..n])[p] < multiset(o)[p]
    ensures n < |o| && forall q | q in o[..n] :: q.updated >= p.updated
  {
    PrefixCounts(o, n, p);
    var i :| n <= i < |o| && o[i] == p;
    forall q | q in o[..n] ensures q.updated >= p.updated {
      var j :| 0 <= j < n && o[j] == q;
    }
  }

  /** The feed in the one-post mode: of the other mode's feed exactly the positions whose
      predecessor is by another author, in order. */
  lemma OnePostFeedIsRunStarts(s: State, user: Uuid) returns (at: seq<nat>)
    ensures var all, r := Fresh(false, s, user), Fresh(true, s, user);
            && |at| == |r|
            && (forall k | 0 <= k < |r| :: at[k] < |all| && r[k] == all[at[k]])
            && (forall j, k | 0 <= j < k < |at| :: at[j] < at[k])
            && (forall i: nat | i < |all| :: i in at <==> i == 0 || all[i - 1].author != all[i].author)
  {
    var all := Fresh(false, s, user);
    at := Dedup.RunStarts(all);
    Dedup.DedupKeepsRunStarts(all);
    Dedup.RunStartsAreExact(all);
    forall i: nat | i < |all| ensures i in at <==> i == 0 || all[i - 1].author != all[i].author {
      if i in at {
        var k :| 0 <= k < |at| && at[k] == i;
      } else {
        assert !Dedup.StartsRun(all, i);
      }
    }
  }

  /** A read leaves a present list alone. Otherwise it stores the feed, if there is one. */
  lemma ReadStoresFeed(onePost: bool, s: State, user: Uuid)
    ensures var z, r := Next(onePost, s, Read(user)), Fresh(onePost, s, user);
            && z.rows == s.rows && z.friends == s.friends && z.queue == s.queue && z.issued == s.issued
            && (forall u | u != user || user in s.cache ::
                  (u in z.cache <==> u in s.cache) && (u in s.cache ==> z.cache[u] == s.cache[u]))
            && (user !in s.cache ==>
                  && (user in z.cache <==> r != [])
                  && (user in z.cache ==>
                        && |z.cache[user]| == |r|
                        && forall i | 0 <= i < |r| :: z.cache[user][i] == Entry(r[i], r[i].id)))
  {
  }

  // ---- writes -----------------------------------------------------------------------------

  lemma CreateAddsRow(onePost: bool, s: State, post: Post, rowId: Uuid, now: int)
    requires Enabled(s, Create(post, rowId, now))
    ensures var z := Next(onePost, s, Create(post, rowId, now));
            && multiset(z.rows) == multiset(s.rows) + multiset{Post(rowId, post.content, post.author, now, now)}
            && z.queue == s.queue + [Event(CREATED, rowId, post)]
            && z.issued == s.issued[rowId := post.author] && z.friends == s.friends && z.cache == s.cache
  {
  }

  lemma UpdateChangesRow(onePost: bool, s: State, post: Post, now: int)
    requires Enabled(s, Update(post, now))
    ensures var z := Next(onePost, s, Update(post, now));
            && |z.rows| == |s.rows|
            && (forall i | 0 <= i < |s.rows| ::
                  z.rows[i] == if s.rows[i].id != post.id then s.rows[i]
                               else Post(post.id, post.content, post.author, s.rows[i].created, now))
            && z.queue == s.queue + [Event(UPDATED, post.id, post)]
            && z.issued == s.issued && z.friends == s.friends && z.cache == s.cache
  {
  }

  lemma {:induction false} RemainingRowsCounts(rows: seq<Post>, id: Uuid, p: Post)
    ensures multiset(RemainingRows(rows, id))[p] == if p.id == id then 0 else multiset(rows)[p]
  {
    if rows == [] {
    } else {
      assert rows == [rows[0]] + rows[1..];
      RemainingRowsCounts(rows[1..], id, p);
    }
  }

  /** A deletion removes every row with the identifier and no other. */
  lemma DeleteRemovesRow(onePost: bool, s: State, post: Post)
    requires Enabled(s, Delete(post))
    ensures var z := Next(onePost, s, Delete(post));
            && (forall p :: p in z.rows <==> p in s.rows && p.id != post.id)
            && (forall p :: multiset(z.rows)[p] == if p.id == post.id then 0 else multiset(s.rows)[p])
            && (UniqueIds(s.rows) ==> UniqueIds(z.rows))
            && z.queue == s.queue + [Event(DELETED, post.id, post)]
            && z.issued == s.issued && z.friends == s.friends && z.cache == s.cache
  {
    forall p ensures multiset(RemainingRows(s.rows, post.id))[p]
                  == if p.id == post.id then 0 else multiset(s.rows)[p]
    {
      RemainingRowsCounts(s.rows, post.id, p);
    }
    if UniqueIds(s.rows) { RemainingRowsUnique(s.rows, post.id); }
  }

  // ---- friends ----------------------------------------------------------------------------

  /** A change of a user's friends takes the lists of the user and of all whom the user read, and
      leaves the others; a refused one leaves all. */
  ghost predicate ListsLeft(before: Lists, after: Lists, friends: seq<Friend>, user: Uuid, changed: bool) {
    && (forall u :: u in after <==> (u in before && !(changed && (u == user || Reads(friends, user, u)))))
    && (forall u | u in after :: u in before && after[u] == before[u])
  }

  lemma InvalidationLeavesLists(s: State, user: Uuid)
    ensures ListsLeft(s.cache, Invalidated(s, user), s.friends, user, true)
  {
    forall u ensures u in Follows(s.friends, user) <==> Reads(s.friends, user, u) {
    }
  }

  /** Either handler, as far as the cache goes. */
  lemma FriendChangeTakesLists(onePost: bool, s: State, t: Step)
    requires t.FriendSet? || t.FriendDelete?
    ensures var z := Next(onePost, s, t);
            var n := match t
                     case FriendSet(f) => |PairRows(s.friends, f.user, f.friend)|
                     case FriendDelete(u, a) => |PairRows(s.friends, u, a)|
                     case _ => 0;
            var user := if t.FriendSet? then t.row.user else t.user;
            ListsLeft(s.cache, z.cache, s.friends, user, if t.FriendSet? then n != 1 else n == 1)
  {
    InvalidationLeavesLists(s, if t.FriendSet? then t.row.user else t.user);
  }

  /** `friend_set` refuses a pair with one row. Otherwise the pair has a row more. */
  lemma FriendSetAddsRow(onePost: bool, s: State, f: Friend)
    ensures var z, ok := Next(onePost, s, FriendSet(f)), |PairRows(s.friends, f.user, f.friend)| != 1;
            && z.rows == s.rows && z.queue == s.queue && z.issued == s.issued
            && multiset(z.friends) == multiset(s.friends) + (if ok then multiset{f} else multiset{})
            && forall u, a :: |PairRows(z.friends, u, a)| == |PairRows(s.friends, u, a)|
                              + (if ok && u == f.user && a == f.friend then 1 else 0)
  {
    forall u, a ensures |PairRows(s.friends + [f], u, a)| == |PairRows(s.friends, u, a)|
                          + (if u == f.user && a == f.friend then 1 else 0)
    {
      PairRowsOfAppended(s.friends, f, u, a);
    }
  }

  lemma {:induction false} WithoutPairKeepsOthers(rows: seq<Friend>, u: Uuid, a: Uuid, f: Friend)
    ensures multiset(WithoutPair(rows, u, a))[f] == if f.user == u && f.friend == a then 0 else multiset(rows)[f]
  {
    if rows == [] {
    } else {
      assert rows == rows[..|rows| - 1] + [rows[|rows| - 1]];
      WithoutPairKeepsOthers(rows[..|rows| - 1], u, a, f);
    }
  }

  /** `friend_delete` refuses a pair that does not have exactly one row. Otherwise the pair has
      none. */
  lemma FriendDeleteRemovesRow(onePost: bool, s: State, user: Uuid, friend: Uuid)
    ensures var z, ok := Next(onePost, s, FriendDelete(user, friend)), |PairRows(s.friends, user, friend)| == 1;
            && z.rows == s.rows && z.queue == s.queue && z.issued == s.issued
            && (forall f :: multiset(z.friends)[f] ==
                  if ok && f.user == user && f.friend == friend then 0 else multiset(s.friends)[f])
            && forall u, a :: |PairRows(z.friends, u, a)| ==
                 if ok && u == user && a == friend then 0 else |PairRows(s.friends, u, a)|
  {
    forall u, a ensures |PairRows(WithoutPair(s.friends, user, friend), u, a)| ==
                          if u == user && a == friend then 0 else |PairRows(s.friends, u, a)|
    {
      WithoutPairCounts(s.friends, user, friend, u, a);
    }
    forall f ensures multiset(WithoutPair(s.friends, user, friend))[f] ==
                       if f.user == user && f.friend == friend then 0 else multiset(s.friends)[f]
    {
      WithoutPairKeepsOthers(s.friends, user, friend, f);
    }
  }

  /** So the laws about runs of calls are laws about the protocol: a step changes the number of
      rows of every pair as `Friends.OpCounts` says. */
  lemma StepCountsAsOp(onePost: bool, s: State, t: Step, user: Uuid, friend: Uuid)
    requires Enabled(s, t)
    ensures var n := |PairRows(s.friends, user, friend)|;
            |PairRows(Next(onePost, s, t).friends, user, friend)| ==
              match t
              case FriendSet(f) =>
                if f.user == user && f.friend == friend && n != 1 then n + 1 else n
              case FriendDelete(u, a) =>
                if u == user && a == friend && n == 1 then 0 else n
              case _ => n
  {
    match t
    case FriendSet(f) => FriendSetAddsRow(onePost, s, f);
    case FriendDelete(u, a) => FriendDeleteRemovesRow(onePost, s, u, a);
    case _ =>
  }

  // ---- consuming --------------------------------------------------------------------------

  lemma ToppedElements(list: seq<Entry>, e: Entry, n: nat)
    requires 0 < n
    ensures |Topped(list, e, n)| == if n + |list| <= 1001 then n + |list| else 1001
    ensures forall k | 0 <= k < |Topped(list, e, n)| :: Topped(list, e, n)[k] == if k < n then e else list[k - n]
  {
  }

  lemma PushedList(cache: Lists, users: seq<Uuid>, e: Entry, user: Uuid, list: seq<Entry>)
    requires user in users && list == At(cache, user)
    ensures var c, n := PushedAll(cache, users, e), multiset(users)[user];
            && user in c
            && |c[user]| == (if n + |list| <= 1001 then n + |list| else 1001)
            && forall k | 0 <= k < |c[user]| :: c[user][k] == if k < n then e else list[k - n]
  {
    var c := PushedAll(cache, users, e);
    var n: nat := multiset(users)[user];
    PushedAllCounts(cache, users, e, user);
    assert c[user] == At(c, user) == Topped(list, e, n);
    assert user in multiset(users);
    ToppedElements(list, e, n);
  }

  /** What a message means for the list of a user with n rows for its author. With none the list
      stays. In the default mode a creation puts n copies on top and cuts to 1001; anything else
      removes the list. */
  ghost predicate Handled(onePost: bool, e: Event, n: nat, before: Lists, after: Lists, user: Uuid) {
    var list := At(before, user);
    if n == 0 then
      (user in after <==> user in before) && (user in before ==> after[user] == before[user])
    else if e.kind != CREATED || onePost then user !in after
    else
      && user in after
      && |after[user]| == (if n + |list| <= 1001 then n + |list| else 1001)
      && forall k | 0 <= k < |after[user]| ::
           after[user][k] == if k < n then Entry(e.post, e.postId) else list[k - n]
  }

  lemma ConsumedList(onePost: bool, cache: Lists, e: Event, users: seq<Uuid>, user: Uuid)
    ensures Handled(onePost, e, multiset(users)[user], cache, Consumed(onePost, cache, e, users), user)
  {
    assert user in users <==> user in multiset(users);
    if e.kind == CREATED && !onePost {
      if user in users {
        PushedList(cache, users, Entry(e.post, e.postId), user, At(cache, user));
      } else {
        PushedAllElsewhere(cache, users, Entry(e.post, e.postId), user);
      }
    }
  }

  /** Handling a message changes each list as the friend relation asks. */
  lemma DeliverChangesList(onePost: bool, s: State, i: nat, acked: bool, user: Uuid)
    requires i < |s.queue|
    ensures var e := s.queue[i];
            Handled(onePost, e, |PairRows(s.friends, user, e.post.author)|, s.cache,
                    Next(onePost, s, Deliver(i, acked)).cache, user)
  {
    var e := s.queue[i];
    FollowersCountPairs(s.friends, user, e.post.author);
    ConsumedList(onePost, s.cache, e, Followers(s.friends, e.post.author), user);
  }

  /** Handling changes nothing but lists and, with the acknowledgement, the message. */
  lemma DeliverTakesMessage(onePost: bool, s: State, i: nat, acked: bool)
    requires i < |s.queue|
    ensures var z := Next(onePost, s, Deliver(i, acked));
            && z.rows == s.rows && z.friends == s.friends && z.issued == s.issued
            && z.queue == if acked then s.queue[..i] + s.queue[i + 1..] else s.queue
  {
  }

  // ---- a deleted post is not shown again ------------------------------------------------------

  /** In neither mode is a post with the identifier in anybody's feed after the deletion. */
  lemma DeletedIsInNoFeed(onePost: bool, s: State, post: Post, user: Uuid)
    requires Enabled(s, Delete(post))
    ensures forall p | p in Fresh(onePost, Next(onePost, s, Delete(post)), user) :: p.id != post.id
  {
    FreshIsFollowed(onePost, Next(onePost, s, Delete(post)), user);
  }

  /** The identifier has been handed out and no row has it: for good, as identifiers of new rows
      are new. */
  ghost predicate DeletedForGood(s: State, id: Uuid) {
    id in s.issued && forall r | r in s.rows :: r.id != id
  }

  lemma {:induction false} StaysDeleted(onePost: bool, s: State, ts: seq<Step>, id: Uuid)
    requires IsRun(onePost, s, ts) && DeletedForGood(s, id)
    ensures DeletedForGood(After(onePost, s, ts), id)
    decreases |ts|
  {
    if ts == [] {
    } else {
      var z := Next(onePost, s, ts[0]);
      forall r | r in z.rows ensures r.id != id {
        if ts[0].Update? {
          var i :| 0 <= i < |z.rows| && z.rows[i] == r;
          assert s.rows[i] in s.rows;
        }
      }
      StaysDeleted(onePost, z, ts[1..], id);
    }
  }

  /** The cached entry does not come from the row, and the row it comes from is there. */
  ghost predicate ShowsAnotherRow(s: State, x: Entry, id: Uuid) {
    x.row != id && exists r :: r in s.rows && r.id == x.row && r.content == x.post.content
  }

  /** Default mode: after the deletion, whatever else happens, once the messages have been handled
      in order no list shows the deleted row. */
  lemma DeletedIsNotCached(s: State, before: seq<Step>, post: Post, after: seq<Step>, user: Uuid, x: Entry)
    requires Initial(s) && IsRun(false, s, before + [Delete(post)] + after)
    requires forall t | t in before + [Delete(post)] + after :: FeedDefault.InOrder(t)
    requires var z := After(false, s, before + [Delete(post)] + after);
             z.queue == [] && user in z.cache && x in z.cache[user]
    ensures ShowsAnotherRow(After(false, s, before + [Delete(post)] + after), x, post.id)
  {
    var ts := before + [Delete(post)] + after;
    FeedDefault.DrainedCacheIsLive(s, ts, user, x);
    DeletedAfterRun(false, s, before, post, after);
  }

  lemma {:induction false} DeletedAfterRun(onePost: bool, s: State, before: seq<Step>, post: Post, after: seq<Step>)
    requires IsRun(onePost, s, before + [Delete(post)] + after)
    ensures DeletedForGood(After(onePost, s, before + [Delete(post)] + after), post.id)
    decreases |before|
  {
    var ts := before + [Delete(post)] + after;
    if before == [] {
      assert ts[0] == Delete(post) && ts[1..] == after;
      StaysDeleted(onePost, Next(onePost, s, ts[0]), after, post.id);
    } else {
      assert ts[0] == before[0] && ts[1..] == before[1..] + [Delete(post)] + after;
      DeletedAfterRun(onePost, Next(onePost, s, ts[0]), before[1..], post, after);
    }
  }

  /** One-post mode: after the deletion, in any order of delivery, once no event is pending for
      the user the list does not show the deleted row. */
  lemma DeletedIsNotCachedOnePost(s: State, before: seq<Step>, post: Post, after: seq<Step>, user: Uuid, x: Entry)
    requires Initial(s) && IsRun(true, s, before + [Delete(post)] + after)
    requires var z := After(true, s, before + [Delete(post)] + after);
             !FeedOnePost.Pending(z, user) && user in z.cache && x in z.cache[user]
    ensures ShowsAnotherRow(After(true, s, before + [Delete(post)] + after), x, post.id)
  {
    var ts := before + [Delete(post)] + after;
    var z := After(true, s, ts);
    InitiallySound(true, s);
    FeedOnePost.CoherentAfterEveryRun(s, ts);
    assert FeedOnePost.Covered(z, user);
    FreshIsFollowed(true, z, user);
    DeletedAfterRun(true, s, before, post, after);
    var posts := Fresh(true, z, user);
    var i :| 0 <= i < |posts| && Entries(posts)[i] == x;
    assert posts[i] in z.rows;
  }
}
