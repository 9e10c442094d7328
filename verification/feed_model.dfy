/** The feed cache protocol as a state machine: the tables, the cached lists and the queue of
    post events. One step is one handler call; a handler's database write and its publication,
    a friend handler's invalidation and its write, and a reader's lookup, query and fill are
    each taken as one step. */
module FeedModel {
  import opened Options
  import opened Posts
  import opened Friends
  import opened RedisLists
  import Dedup

  datatype EventKind = CREATED | UPDATED | DELETED

  /** A queue message. For a creation `post` is the application's object, whose identifier and
      times are not those of the new row; `postId` is the row's identifier. */
  datatype Event = Event(kind: EventKind, postId: Uuid, post: Post)

  /** `issued` is a history variable: the row identifiers ever handed out, with the author. */
  datatype State = State(
    rows: seq<Post>,
    friends: seq<Friend>,
    cache: Lists,
    queue: seq<Event>,
    issued: map<Uuid, Uuid>)

  // ---- the feed query ---------------------------------------------------------------------

  function Fresh(onePost: bool, s: State, user: Uuid): seq<Post> {
    var posts := Selected(s.rows, Follows(s.friends, user));
    if onePost then Dedup.Deduped(posts) else posts
  }

  function Entries(posts: seq<Post>): (r: seq<Entry>)
    ensures |r| == |posts|
  {
    seq(|posts|, i requires 0 <= i < |posts| => Entry(posts[i], posts[i].id))
  }

  function PostsOf(entries: seq<Entry>): (r: seq<Post>)
    ensures |r| == |entries|
  {
    seq(|entries|, i requires 0 <= i < |entries| => entries[i].post)
  }

  // ---- consuming an event -----------------------------------------------------------------

  /** LPUSH, then LTRIM 0 FEED_LENGTH. */
  function Pushed(cache: Lists, user: Uuid, e: Entry): Lists {
    LTrimmed(LPushed(cache, user, e), user, 0, FEED_LENGTH)
  }

  function PushedAll(cache: Lists, users: seq<Uuid>, e: Entry): Lists {
    if users == [] then cache
    else Pushed(PushedAll(cache, users[..|users| - 1], e), users[|users| - 1], e)
  }

  function Dropped(cache: Lists, users: seq<Uuid>): Lists {
    cache - (set u | u in users)
  }

  /** What the consumer does to the lists of the given readers. */
  function Consumed(onePost: bool, cache: Lists, e: Event, users: seq<Uuid>): Lists {
    if e.kind.CREATED? && !onePost then PushedAll(cache, users, Entry(e.post, e.postId))
    else Dropped(cache, users)
  }

  // ---- steps ------------------------------------------------------------------------------

  datatype Step =
    | Read(user: Uuid)
    | Create(post: Post, rowId: Uuid, now: int)
    | Update(post: Post, now: int)
    | Delete(post: Post)
      // The consumer runs to its end on the message at `index`. Without the acknowledgement
      // the message stays and will be delivered again.
    | Deliver(index: nat, acked: bool)
      // The consumer stops after `reached` readers; the message stays.
    | DeliverPart(index: nat, reached: nat)
    | FriendSet(row: Friend)
    | FriendDelete(user: Uuid, friend: Uuid)

  /** Identifiers of new rows are new. A post that is updated or deleted was loaded from the
      table before, by its author; the row may be gone since. */
  predicate Enabled(s: State, t: Step) {
    match t
    case Create(post, rowId, now) => rowId !in s.issued
    case Update(post, now) => post.id in s.issued && s.issued[post.id] == post.author
    case Delete(post) => post.id in s.issued && s.issued[post.id] == post.author
    case Deliver(i, _) => i < |s.queue|
    case DeliverPart(i, reached) =>
      i < |s.queue| && reached <= |Followers(s.friends, s.queue[i].post.author)|
    case _ => true
  }

  function RowOf(post: Post, rowId: Uuid, now: int): Post {
    Post(rowId, post.content, post.author, now, now)
  }

  /** `UPDATE posts SET content, user_id, time_updated WHERE id` */
  function UpdatedRows(rows: seq<Post>, post: Post, now: int): (r: seq<Post>)
    ensures |r| == |rows|
    ensures forall i | 0 <= i < |rows| :: r[i] ==
              if rows[i].id == post.id
              then rows[i].(content := post.content, author := post.author, updated := now)
              else rows[i]
  {
    if rows == [] then []
    else
      [if rows[0].id == post.id
       then rows[0].(content := post.content, author := post.author, updated := now)
       else rows[0]]
      + UpdatedRows(rows[1..], post, now)
  }

  /** `DELETE FROM posts WHERE id` */
  function RemainingRows(rows: seq<Post>, id: Uuid): (r: seq<Post>)
    ensures forall p :: p in r <==> p in rows && p.id != id
  {
    if rows == [] then []
    else
      assert rows == [rows[0]] + rows[1..];
      (if rows[0].id == id then [] else [rows[0]]) + RemainingRows(rows[1..], id)
  }

  /** `cache_invalidate_by_friend_user_id`: the lists of the user's friends and the user's own. */
  function Invalidated(s: State, user: Uuid): Lists {
    s.cache - (Follows(s.friends, user) + {user})
  }

  function Removed(queue: seq<Event>, i: nat): seq<Event>
    requires i < |queue|
  {
    queue[..i] + queue[i + 1..]
  }

  function Next(onePost: bool, s: State, t: Step): State
    requires Enabled(s, t)
  {
    match t
    case Read(user) =>
      if user in s.cache then s
      else s.(cache := Stored(s.cache, user, Entries(Fresh(onePost, s, user))))
    case Create(post, rowId, now) =>
      s.(rows := [RowOf(post, rowId, now)] + s.rows,
         queue := s.queue + [Event(CREATED, rowId, post)],
         issued := s.issued[rowId := post.author])
    case Update(post, now) =>
      s.(rows := UpdatedRows(s.rows, post, now),
         queue := s.queue + [Event(UPDATED, post.id, post)])
    case Delete(post) =>
      s.(rows := RemainingRows(s.rows, post.id),
         queue := s.queue + [Event(DELETED, post.id, post)])
    case Deliver(i, acked) =>
      var e := s.queue[i];
      s.(cache := Consumed(onePost, s.cache, e, Followers(s.friends, e.post.author)),
         queue := if acked then Removed(s.queue, i) else s.queue)
    case DeliverPart(i, reached) =>
      var e := s.queue[i];
      s.(cache := Consumed(onePost, s.cache, e, Followers(s.friends, e.post.author)[..reached]))
    case FriendSet(f) =>
      if QueryOne(PairRows(s.friends, f.user, f.friend)).Some? then s
      else s.(cache := Invalidated(s, f.user), friends := s.friends + [f])
    case FriendDelete(user, friend) =>
      if QueryOne(PairRows(s.friends, user, friend)).None? then s
      else s.(cache := Invalidated(s, user), friends := WithoutPair(s.friends, user, friend))
  }

  // ---- runs -------------------------------------------------------------------------------

  ghost predicate IsRun(onePost: bool, s: State, ts: seq<Step>)
    decreases |ts|
  {
    ts == [] || (Enabled(s, ts[0]) && IsRun(onePost, Next(onePost, s, ts[0]), ts[1..]))
  }

  function After(onePost: bool, s: State, ts: seq<Step>): State
    requires IsRun(onePost, s, ts)
    decreases |ts|
  {
    if ts == [] then s else After(onePost, Next(onePost, s, ts[0]), ts[1..])
  }

  /** Where runs start: nothing cached, nothing queued, rows with identifiers of their own. */
  ghost predicate Initial(s: State) {
    && s.cache == map[] && s.queue == []
    && UniqueIds(s.rows) && UniquePairs(s.friends) && RowsIssued(s)
  }

  ghost predicate RowsIssued(s: State) {
    forall r | r in s.rows :: r.id in s.issued && s.issued[r.id] == r.author
  }

  // ---- basic facts ------------------------------------------------------------------------

  lemma {:induction false} PushedAllElsewhere(cache: Lists, users: seq<Uuid>, e: Entry, u: Uuid)
    requires u !in users
    ensures u in PushedAll(cache, users, e) <==> u in cache
    ensures u in cache ==> PushedAll(cache, users, e)[u] == cache[u]
  {
    if users == [] {
    } else {
      PushedAllElsewhere(cache, users[..|users| - 1], e, u);
    }
  }

  /** A list under an entry pushed n times, each time cut to FEED_LENGTH + 1. */
  function Topped(list: seq<Entry>, e: Entry, n: nat): seq<Entry> {
    if n == 0 then list else Take(Copies(e, n) + list, FEED_LENGTH + 1)
  }

  lemma PushedTops(cache: Lists, u: Uuid, e: Entry, list: seq<Entry>, n: nat)
    requires At(cache, u) == Topped(list, e, n)
    ensures u in Pushed(cache, u, e) && Pushed(cache, u, e)[u] == Topped(list, e, n + 1)
  {
    assert Copies(e, n + 1) + list == [e] + (Copies(e, n) + list);
    assert Copies(e, 0) + list == list;
    assert Pushed(cache, u, e)[u] == Take([e] + At(cache, u), FEED_LENGTH + 1);
  }

  lemma CountWithLast(users: seq<Uuid>, u: Uuid)
    requires users != []
    ensures multiset(users)[u]
         == multiset(users[..|users| - 1])[u] + (if users[|users| - 1] == u then 1 else 0)
  {
    assert users == users[..|users| - 1] + [users[|users| - 1]];
  }

  /** A reader gets the entry as often as it occurs among the followers. */
  lemma {:induction false} PushedAllCounts(cache: Lists, users: seq<Uuid>, e: Entry, u: Uuid)
    ensures At(PushedAll(cache, users, e), u) == Topped(At(cache, u), e, multiset(users)[u])
    ensures u in users ==> u in PushedAll(cache, users, e)
  {
    if users == [] {
    } else {
      var last, front := users[|users| - 1], users[..|users| - 1];
      var before := PushedAll(cache, front, e);
      PushedAllCounts(cache, front, e, u);
      CountWithLast(users, u);
      if last == u {
        var counts: multiset<Uuid> := multiset(front);
        PushedTops(before, u, e, At(cache, u), counts[u]);
      } else {
        assert u in users ==> u in front;
        assert At(Pushed(before, last, e), u) == At(before, u);
      }
    }
  }

  lemma PushedAllOnce(cache: Lists, users: seq<Uuid>, e: Entry, u: Uuid)
    requires multiset(users)[u] == 1
    ensures u in PushedAll(cache, users, e)
    ensures PushedAll(cache, users, e)[u] == Take([e] + At(cache, u), FEED_LENGTH + 1)
  {
    assert u in multiset(users);
    PushedAllCounts(cache, users, e, u);
    assert Copies(e, 1) + At(cache, u) == [e] + At(cache, u);
  }

  /** Every list the consumer leaves is an old list, or an old list with the entry put on top
      some number of times and cut to FEED_LENGTH + 1. */
  lemma {:induction false} PushedAllGrows(cache: Lists, users: seq<Uuid>, e: Entry, u: Uuid)
    requires u in PushedAll(cache, users, e)
    ensures forall x | x in PushedAll(cache, users, e)[u] :: x == e || (u in cache && x in cache[u])
    ensures u !in users ==> u in cache && PushedAll(cache, users, e)[u] == cache[u]
    ensures u in users ==> |PushedAll(cache, users, e)[u]| <= FEED_LENGTH + 1
  {
    if users == [] {
    } else {
      var last, front := users[|users| - 1], users[..|users| - 1];
      assert users == front + [last];
      var before := PushedAll(cache, front, e);
      if u in before { PushedAllGrows(cache, front, e, u); }
      if u == last {
        var l := [e] + At(before, u);
        assert PushedAll(cache, users, e)[u] == Range(l, 0, FEED_LENGTH);
        forall x | x in Range(l, 0, FEED_LENGTH) ensures x in l { }
      }
    }
  }

  lemma EntriesRoundTrip(posts: seq<Post>)
    ensures PostsOf(Entries(posts)) == posts
  {
  }

  lemma {:induction false} RunsKeepFriendPairsUnique(onePost: bool, s: State, ts: seq<Step>)
    requires IsRun(onePost, s, ts) && UniquePairs(s.friends)
    ensures UniquePairs(After(onePost, s, ts).friends)
    decreases |ts|
  {
    if ts == [] {
    } else {
      StepKeepsFriendPairsUnique(onePost, s, ts[0]);
      RunsKeepFriendPairsUnique(onePost, Next(onePost, s, ts[0]), ts[1..]);
    }
  }

  lemma StepKeepsFriendPairsUnique(onePost: bool, s: State, t: Step)
    requires Enabled(s, t) && UniquePairs(s.friends)
    ensures UniquePairs(Next(onePost, s, t).friends)
  {
    match t
    case FriendSet(f) =>
      UniquePairsRun(s.friends, [FriendOp.Set(f)]);
      assert AppliedAll(s.friends, [FriendOp.Set(f)]) == Applied(s.friends, FriendOp.Set(f));
    case FriendDelete(u, a) =>
      UniquePairsRun(s.friends, [Unset(u, a)]);
      assert AppliedAll(s.friends, [Unset(u, a)]) == Applied(s.friends, Unset(u, a));
    case _ =>
  }

  lemma EarlierRowsUnderUpdate(rows: seq<Post>, post: Post, now: int, row: Post)
    requires UniqueIds(rows) && row in rows && row.id == post.id
    requires forall r | r in rows :: r.updated < now
    ensures var after := UpdatedRows(rows, post, now);
            var changed := row.(content := post.content, author := post.author, updated := now);
            changed in after && forall r | r in after && r != changed :: r.updated < now
  {
    var after := UpdatedRows(rows, post, now);
    var k :| 0 <= k < |rows| && rows[k] == row;
    var changed := after[k];
    assert changed == row.(content := post.content, author := post.author, updated := now);
    forall r | r in after && r != changed ensures r.updated < now {
      var i :| 0 <= i < |after| && after[i] == r;
      assert rows[i] in rows;
      assert i != k;
    }
  }

  /** An update at a new time brings the post, with its new content, to the top of every feed
      of its author's readers. */
  lemma UpdateMovesToTop(s: State, post: Post, now: int, row: Post, user: Uuid)
    requires UniqueIds(s.rows) && row in s.rows && row.id == post.id
    requires Enabled(s, Update(post, now)) && forall r | r in s.rows :: r.updated < now
    requires post.author in Follows(s.friends, user)
    ensures var feed := Fresh(false, Next(false, s, Update(post, now)), user);
            && feed != [] && feed[0].id == post.id && feed[0].content == post.content
            && feed[0].updated == now && feed[0].created == row.created
  {
    EarlierRowsUnderUpdate(s.rows, post, now, row);
    NewestRowHeadsFeed(UpdatedRows(s.rows, post, now), Follows(s.friends, user),
                       row.(content := post.content, author := post.author, updated := now));
  }
}
