/** What holds of the cache in both modes, after every run, however events are delivered. */
module FeedSafety {
  import opened Posts
  import opened Friends
  import opened RedisLists
  import opened FeedModel
  import Dedup

  ghost predicate QueueIssued(s: State) {
    forall e | e in s.queue :: e.postId in s.issued && s.issued[e.postId] == e.post.author
  }

  /** No user's list holds a post by an author the user does not follow now. */
  ghost predicate AuthorsFollowed(s: State) {
    forall u, x | u in s.cache && x in s.cache[u] :: x.post.author in Follows(s.friends, u)
  }

  ghost predicate EntriesIssued(s: State) {
    forall u, x | u in s.cache && x in s.cache[u] :: x.row in s.issued && s.issued[x.row] == x.post.author
  }

  ghost predicate ListsBounded(onePost: bool, s: State) {
    forall u | u in s.cache :: 0 < |s.cache[u]| <= FEED_LENGTH + (if onePost then 0 else 1)
  }

  /** Row identifiers are unique and stay with their author. */
  ghost predicate TablesSound(s: State) {
    RowsIssued(s) && QueueIssued(s) && UniqueIds(s.rows) && UniquePairs(s.friends)
  }

  ghost predicate CacheSound(onePost: bool, s: State) {
    AuthorsFollowed(s) && EntriesIssued(s) && ListsBounded(onePost, s)
  }

  // ---- tables -----------------------------------------------------------------------------

  lemma {:induction false} RemainingRowsUnique(rows: seq<Post>, id: Uuid)
    requires UniqueIds(rows)
    ensures UniqueIds(RemainingRows(rows, id))
  {
    if rows == [] {
    } else {
      var rest := RemainingRows(rows[1..], id);
      RemainingRowsUnique(rows[1..], id);
      forall r | r in rest ensures r.id != rows[0].id {
        assert r in rows[1..];
        var i :| 0 <= i < |rows[1..]| && rows[1..][i] == r;
        assert rows[i + 1].id != rows[0].id;
      }
    }
  }

  lemma UpdatedRowsKeepIssued(s: State, post: Post, now: int)
    requires RowsIssued(s) && post.id in s.issued && s.issued[post.id] == post.author
    ensures forall r | r in UpdatedRows(s.rows, post, now) :: r.id in s.issued && s.issued[r.id] == r.author
  {
    var after := UpdatedRows(s.rows, post, now);
    forall r | r in after ensures r.id in s.issued && s.issued[r.id] == r.author {
      var i :| 0 <= i < |after| && after[i] == r;
      assert s.rows[i] in s.rows;
    }
  }

  lemma TablesStaySound(onePost: bool, s: State, t: Step)
    requires Enabled(s, t) && TablesSound(s)
    ensures TablesSound(Next(onePost, s, t))
  {
    var s' := Next(onePost, s, t);
    StepKeepsFriendPairsUnique(onePost, s, t);
    match t
    case Create(post, rowId, now) =>
      forall i | 0 <= i < |s.rows| ensures s.rows[i].id != rowId { assert s.rows[i] in s.rows; }
    case Update(post, now) =>
      UpdatedRowsKeepIssued(s, post, now);
    case Delete(post) =>
      RemainingRowsUnique(s.rows, post.id);
    case _ =>
      assert forall e | e in s'.queue :: e in s.queue;
  }

  // ---- lists ------------------------------------------------------------------------------

  lemma FreshIsFollowed(onePost: bool, s: State, user: Uuid)
    ensures |Fresh(onePost, s, user)| <= FEED_LENGTH
    ensures forall p | p in Fresh(onePost, s, user) :: p in s.rows && p.author in Follows(s.friends, user)
  {
    var authors := Follows(s.friends, user);
    var posts := Selected(s.rows, authors);
    SelectedIsNewestByAuthors(s.rows, authors);
    Dedup.DedupKeepsRunStarts(posts);
    Dedup.RunStartsAreExact(posts);
    forall p | p in Dedup.Deduped(posts) ensures p in posts {
      var k :| 0 <= k < |Dedup.Deduped(posts)| && Dedup.Deduped(posts)[k] == p;
      assert posts[Dedup.RunStarts(posts)[k]] == p;
    }
  }

  lemma FillKeepsFollowed(onePost: bool, s: State, user: Uuid)
    requires AuthorsFollowed(s)
    ensures AuthorsFollowed(Next(onePost, s, Read(user)))
  {
    FreshIsFollowed(onePost, s, user);
    var posts := Fresh(onePost, s, user);
    forall x | x in Entries(posts) ensures x.post.author in Follows(s.friends, user) {
      var i :| 0 <= i < |posts| && Entries(posts)[i] == x;
      assert posts[i] in posts;
    }
  }

  lemma FillKeepsIssued(onePost: bool, s: State, user: Uuid)
    requires RowsIssued(s) && EntriesIssued(s) && ListsBounded(onePost, s)
    ensures var s' := Next(onePost, s, Read(user)); EntriesIssued(s') && ListsBounded(onePost, s')
  {
    FreshIsFollowed(onePost, s, user);
    var posts := Fresh(onePost, s, user);
    forall x | x in Entries(posts) ensures x.row in s.issued && s.issued[x.row] == x.post.author {
      var i :| 0 <= i < |posts| && Entries(posts)[i] == x;
      assert posts[i] in posts;
    }
  }

  /** Whoever the lists belong to, the consumer keeps their entries issued and their lengths. */
  lemma ConsumeStaysIssued(onePost: bool, s: State, e: Event, users: seq<Uuid>)
    requires EntriesIssued(s) && ListsBounded(onePost, s) && e in s.queue && QueueIssued(s)
    ensures var s' := s.(cache := Consumed(onePost, s.cache, e, users));
            EntriesIssued(s') && ListsBounded(onePost, s')
  {
    var s' := s.(cache := Consumed(onePost, s.cache, e, users));
    if e.kind.CREATED? && !onePost {
      var x := Entry(e.post, e.postId);
      forall u | u in s'.cache
        ensures 0 < |s'.cache[u]| <= FEED_LENGTH + 1
        ensures forall y | y in s'.cache[u] :: y.row in s.issued && s.issued[y.row] == y.post.author
      {
        PushedAllGrows(s.cache, users, x, u);
        PushedAllNonEmpty(s.cache, users, x, u);
      }
    }
  }

  lemma ConsumeKeepsFollowed(onePost: bool, s: State, e: Event, users: seq<Uuid>)
    requires AuthorsFollowed(s) && forall u | u in users :: e.post.author in Follows(s.friends, u)
    ensures AuthorsFollowed(s.(cache := Consumed(onePost, s.cache, e, users)))
  {
    var s' := s.(cache := Consumed(onePost, s.cache, e, users));
    if e.kind.CREATED? && !onePost {
      forall u, y | u in s'.cache && y in s'.cache[u] ensures y.post.author in Follows(s.friends, u) {
        PushedAllGrows(s.cache, users, Entry(e.post, e.postId), u);
      }
    }
  }

  lemma {:induction false} PushedAllNonEmpty(cache: Lists, users: seq<Uuid>, e: Entry, u: Uuid)
    requires NoEmptyList(cache) && u in PushedAll(cache, users, e)
    ensures PushedAll(cache, users, e)[u] != []
  {
    if users == [] {
    } else {
      var before := PushedAll(cache, users[..|users| - 1], e);
      if u in before { PushedAllNonEmpty(cache, users[..|users| - 1], e, u); }
    }
  }

  lemma FriendsKeepFollowed(onePost: bool, s: State, t: Step)
    requires t.FriendSet? || t.FriendDelete?
    requires AuthorsFollowed(s)
    ensures AuthorsFollowed(Next(onePost, s, t))
  {
    var s' := Next(onePost, s, t);
    forall u | u in s'.cache ensures Follows(s.friends, u) <= Follows(s'.friends, u) {
      forall a | a in Follows(s.friends, u) ensures a in Follows(s'.friends, u) {
        var f :| f in s.friends && f.user == u && f.friend == a;
        assert f in s'.friends;
      }
    }
  }

  lemma FriendsStaySound(onePost: bool, s: State, t: Step)
    requires t.FriendSet? || t.FriendDelete?
    requires CacheSound(onePost, s)
    ensures CacheSound(onePost, Next(onePost, s, t))
  {
    FriendsKeepFollowed(onePost, s, t);
  }

  lemma StepKeepsFollowed(onePost: bool, s: State, t: Step)
    requires Enabled(s, t) && AuthorsFollowed(s)
    ensures AuthorsFollowed(Next(onePost, s, t))
  {
    match t
    case Read(user) => FillKeepsFollowed(onePost, s, user);
    case Deliver(i, _) =>
      ReadersFollow(s, s.queue[i].post.author);
      ConsumeKeepsFollowed(onePost, s, s.queue[i], Followers(s.friends, s.queue[i].post.author));
    case DeliverPart(i, reached) =>
      ReadersFollow(s, s.queue[i].post.author);
      ConsumeKeepsFollowed(onePost, s, s.queue[i], Followers(s.friends, s.queue[i].post.author)[..reached]);
    case FriendSet(_) => FriendsKeepFollowed(onePost, s, t);
    case FriendDelete(_, _) => FriendsKeepFollowed(onePost, s, t);
    case _ =>
  }

  lemma ReadersFollow(s: State, author: Uuid)
    ensures forall u | u in Followers(s.friends, author) :: author in Follows(s.friends, u)
  {
    forall u | u in Followers(s.friends, author) ensures author in Follows(s.friends, u) {
      FollowersAreReaders(s.friends, u, author);
    }
  }

  lemma FewerListsStayIssued(onePost: bool, s: State, s': State)
    requires EntriesIssued(s) && ListsBounded(onePost, s)
    requires forall u | u in s'.cache :: u in s.cache && s'.cache[u] == s.cache[u]
    requires forall r | r in s.issued :: r in s'.issued && s'.issued[r] == s.issued[r]
    ensures EntriesIssued(s') && ListsBounded(onePost, s')
  {
  }

  lemma StepKeepsIssued(onePost: bool, s: State, t: Step)
    requires Enabled(s, t) && TablesSound(s) && EntriesIssued(s) && ListsBounded(onePost, s)
    ensures var s' := Next(onePost, s, t); EntriesIssued(s') && ListsBounded(onePost, s')
  {
    var s' := Next(onePost, s, t);
    match t
    case Read(user) => FillKeepsIssued(onePost, s, user);
    case Deliver(i, _) =>
      ConsumeStaysIssued(onePost, s, s.queue[i], Followers(s.friends, s.queue[i].post.author));
      FewerListsStayIssued(onePost, s.(cache := s'.cache), s');
    case DeliverPart(i, reached) =>
      ConsumeStaysIssued(onePost, s, s.queue[i], Followers(s.friends, s.queue[i].post.author)[..reached]);
    case _ => FewerListsStayIssued(onePost, s, s');
  }

  lemma CacheStaysSound(onePost: bool, s: State, t: Step)
    requires Enabled(s, t) && TablesSound(s) && CacheSound(onePost, s)
    ensures CacheSound(onePost, Next(onePost, s, t))
  {
    StepKeepsFollowed(onePost, s, t);
    StepKeepsIssued(onePost, s, t);
  }

  lemma InitiallySound(onePost: bool, s: State)
    requires Initial(s)
    ensures TablesSound(s) && CacheSound(onePost, s)
  {
  }

  /** In every reachable state, in both modes, every cached post is by an author its reader
      follows at that moment, and every list has between 1 and FEED_LENGTH entries, one more
      in the default mode. */
  lemma {:induction false} SoundAfterEveryRun(onePost: bool, s: State, ts: seq<Step>)
    requires IsRun(onePost, s, ts) && TablesSound(s) && CacheSound(onePost, s)
    ensures TablesSound(After(onePost, s, ts)) && CacheSound(onePost, After(onePost, s, ts))
    decreases |ts|
  {
    if ts == [] {
    } else {
      TablesStaySound(onePost, s, ts[0]);
      CacheStaysSound(onePost, s, ts[0]);
      SoundAfterEveryRun(onePost, Next(onePost, s, ts[0]), ts[1..]);
    }
  }
}
