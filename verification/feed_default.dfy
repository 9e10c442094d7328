/** The default mode: creations are pushed onto the cached lists, updates and deletions drop
    them. Here the order of delivery matters. */
module FeedDefault {
  import opened Options
  import opened Posts
  import opened Friends
  import opened RedisLists
  import opened FeedModel
  import opened FeedSafety
  import FeedOnePost

  // ======== no outdated post ================================================================

  /** The entry shows a row of the table as it is now. */
  ghost predicate Live(s: State, x: Entry) {
    exists r :: r in s.rows && r.id == x.row && r.content == x.post.content && r.author == x.post.author
  }

  /** An update or deletion of the row waits in the queue at position `from` or later. */
  ghost predicate Superseded(queue: seq<Event>, from: nat, row: Uuid) {
    exists j :: from <= j < |queue| && queue[j].postId == row && !queue[j].kind.CREATED?
  }

  ghost predicate Sourced(s: State, x: Entry, from: nat) {
    Live(s, x) || Superseded(s.queue, from, x.row)
  }

  ghost predicate NoStaleEntry(s: State) {
    && (forall u, x | u in s.cache && x in s.cache[u] :: Sourced(s, x, 0))
    && (forall i | 0 <= i < |s.queue| && s.queue[i].kind.CREATED? ::
          Sourced(s, Entry(s.queue[i].post, s.queue[i].postId), i + 1))
  }

  /** Messages are handled in queue order; a message may be handled again before the next. */
  predicate InOrder(t: Step) {
    match t
    case Deliver(i, _) => i == 0
    case DeliverPart(i, _) => i == 0
    case _ => true
  }

  lemma WriteKeepsSourced(s: State, t: Step, x: Entry, from: nat)
    requires t.Create? || t.Update? || t.Delete?
    requires Enabled(s, t) && Sourced(s, x, from) && from <= |s.queue|
    ensures Sourced(Next(false, s, t), x, from)
  {
    var s' := Next(false, s, t);
    var last := |s.queue|;
    assert s'.queue[..last] == s.queue;
    if Superseded(s.queue, from, x.row) {
      var j :| from <= j < |s.queue| && s.queue[j].postId == x.row && !s.queue[j].kind.CREATED?;
      assert s'.queue[j] == s.queue[j];
    } else {
      var r :| r in s.rows && r.id == x.row && r.content == x.post.content && r.author == x.post.author;
      if t.Create? {
        assert r in s'.rows;
      } else if t.post.id == x.row {
        assert s'.queue[last].postId == x.row;
      } else {
        var i :| 0 <= i < |s.rows| && s.rows[i] == r;
        assert t.Update? ==> s'.rows[i] == r;
        assert r in s'.rows;
      }
    }
  }

  lemma WriteKeepsNoStale(s: State, t: Step)
    requires t.Create? || t.Update? || t.Delete?
    requires Enabled(s, t) && NoStaleEntry(s)
    ensures NoStaleEntry(Next(false, s, t))
  {
    var s' := Next(false, s, t);
    forall u, x | u in s'.cache && x in s'.cache[u] ensures Sourced(s', x, 0) {
      WriteKeepsSourced(s, t, x, 0);
    }
    forall i | 0 <= i < |s'.queue| && s'.queue[i].kind.CREATED?
      ensures Sourced(s', Entry(s'.queue[i].post, s'.queue[i].postId), i + 1)
    {
      if i < |s.queue| {
        assert s'.queue[i] == s.queue[i];
        WriteKeepsSourced(s, t, Entry(s.queue[i].post, s.queue[i].postId), i + 1);
      } else {
        assert RowOf(t.post, t.rowId, t.now) in s'.rows;
      }
    }
  }

  lemma SupersededLater(queue: seq<Event>, from: nat, row: Uuid)
    requires 0 < from <= |queue| && Superseded(queue, from, row)
    ensures Superseded(queue[1..], from - 1, row)
  {
    var j :| from <= j < |queue| && queue[j].postId == row && !queue[j].kind.CREATED?;
    assert queue[1..][j - 1] == queue[j];
  }

  /** Entries that survive the first message, and those it adds, do not depend on it. */
  lemma SurvivorsDoNotNeedFirst(s: State, u: Uuid, x: Entry)
    requires TablesSound(s) && CacheSound(false, s) && NoStaleEntry(s) && s.queue != []
    requires var e := s.queue[0];
             var c := Consumed(false, s.cache, e, Followers(s.friends, e.post.author));
             u in c && x in c[u]
    ensures Sourced(s, x, 1)
  {
    var e := s.queue[0];
    var users := Followers(s.friends, e.post.author);
    if e.kind.CREATED? {
      PushedAllGrows(s.cache, users, Entry(e.post, e.postId), u);
      assert Sourced(s, Entry(s.queue[0].post, s.queue[0].postId), 1);
      assert x == Entry(e.post, e.postId) || Sourced(s, x, 0);
    } else {
      FollowersAreReaders(s.friends, u, e.post.author);
      assert Sourced(s, x, 0);
      assert u in s.cache && x in s.cache[u] && e in s.queue;
      assert x.row != e.postId;
    }
  }

  lemma DeliveryKeepsNoStale(s: State, t: Step)
    requires t.Deliver? || t.DeliverPart?
    requires Enabled(s, t) && InOrder(t)
    requires TablesSound(s) && CacheSound(false, s) && NoStaleEntry(s)
    ensures NoStaleEntry(Next(false, s, t))
  {
    var s' := Next(false, s, t);
    var e := s.queue[0];
    if t.Deliver? && t.acked {
      assert s'.queue == s.queue[1..];
      forall u, x | u in s'.cache && x in s'.cache[u] ensures Sourced(s', x, 0) {
        SurvivorsDoNotNeedFirst(s, u, x);
        if Superseded(s.queue, 1, x.row) { SupersededLater(s.queue, 1, x.row); }
      }
      forall i | 0 <= i < |s'.queue| && s'.queue[i].kind.CREATED?
        ensures Sourced(s', Entry(s'.queue[i].post, s'.queue[i].postId), i + 1)
      {
        var row := s.queue[i + 1].postId;
        assert Sourced(s, Entry(s.queue[i + 1].post, row), i + 2);
        if Superseded(s.queue, i + 2, row) { SupersededLater(s.queue, i + 2, row); }
      }
    } else {
      var users := Followers(s.friends, e.post.author);
      var reached := if t.Deliver? then users else users[..t.reached];
      forall u, x | u in s'.cache && x in s'.cache[u] ensures Sourced(s', x, 0) {
        if e.kind.CREATED? { PushedAllGrows(s.cache, reached, Entry(e.post, e.postId), u); }
        assert Sourced(s, x, 0);
      }
    }
  }

  lemma ReadKeepsNoStale(s: State, user: Uuid)
    requires NoStaleEntry(s)
    ensures NoStaleEntry(Next(false, s, Read(user)))
  {
    var s' := Next(false, s, Read(user));
    var posts := Fresh(false, s, user);
    FreshIsFollowed(false, s, user);
    forall u, x | u in s'.cache && x in s'.cache[u] ensures Sourced(s', x, 0) {
      if u in s.cache {
        assert Sourced(s, x, 0);
      } else {
        var i :| 0 <= i < |posts| && Entries(posts)[i] == x;
        assert posts[i] in s.rows;
      }
    }
    forall i | 0 <= i < |s'.queue| && s'.queue[i].kind.CREATED?
      ensures Sourced(s', Entry(s'.queue[i].post, s'.queue[i].postId), i + 1)
    {
      assert Sourced(s, Entry(s.queue[i].post, s.queue[i].postId), i + 1);
    }
  }

  lemma FriendsKeepNoStale(s: State, t: Step)
    requires t.FriendSet? || t.FriendDelete?
    requires NoStaleEntry(s)
    ensures NoStaleEntry(Next(false, s, t))
  {
    var s' := Next(false, s, t);
    forall u, x | u in s'.cache && x in s'.cache[u] ensures Sourced(s', x, 0) {
      assert Sourced(s, x, 0);
    }
    forall i | 0 <= i < |s'.queue| && s'.queue[i].kind.CREATED?
      ensures Sourced(s', Entry(s'.queue[i].post, s'.queue[i].postId), i + 1)
    {
      assert Sourced(s, Entry(s.queue[i].post, s.queue[i].postId), i + 1);
    }
  }

  lemma StepKeepsNoStale(s: State, t: Step)
    requires Enabled(s, t) && InOrder(t)
    requires TablesSound(s) && CacheSound(false, s) && NoStaleEntry(s)
    ensures NoStaleEntry(Next(false, s, t))
  {
    match t
    case Read(user) => ReadKeepsNoStale(s, user);
    case Deliver(_, _) => DeliveryKeepsNoStale(s, t);
    case DeliverPart(_, _) => DeliveryKeepsNoStale(s, t);
    case FriendSet(_) => FriendsKeepNoStale(s, t);
    case FriendDelete(_, _) => FriendsKeepNoStale(s, t);
    case _ => WriteKeepsNoStale(s, t);
  }

  /** With messages handled in order, after every run each cached entry shows its row as it is
      now, or an update or deletion of that row is still in the queue. */
  lemma {:induction false} NoStaleAfterEveryRun(s: State, ts: seq<Step>)
    requires IsRun(false, s, ts) && forall t | t in ts :: InOrder(t)
    requires TablesSound(s) && CacheSound(false, s) && NoStaleEntry(s)
    ensures NoStaleEntry(After(false, s, ts))
    decreases |ts|
  {
    if ts == [] {
    } else {
      assert ts[0] in ts;
      TablesStaySound(false, s, ts[0]);
      CacheStaysSound(false, s, ts[0]);
      StepKeepsNoStale(s, ts[0]);
      NoStaleAfterEveryRun(Next(false, s, ts[0]), ts[1..]);
    }
  }

  /** So an empty queue means that no deleted or outdated post is cached. */
  lemma DrainedCacheIsLive(s: State, ts: seq<Step>, user: Uuid, x: Entry)
    requires Initial(s) && IsRun(false, s, ts) && forall t | t in ts :: InOrder(t)
    requires var z := After(false, s, ts); z.queue == [] && user in z.cache && x in z.cache[user]
    ensures Live(After(false, s, ts), x)
  {
    InitiallySound(false, s);
    NoStaleAfterEveryRun(s, ts);
    assert Sourced(After(false, s, ts), x, 0);
  }

  // ======== the list the queue leads to =====================================================

  function Lookup(cache: Lists, user: Uuid): Option<seq<Entry>> {
    if user in cache then Some(cache[user]) else None
  }

  /** What one event does to one reader's list, key by key. */
  function Absorbed(list: Option<seq<Entry>>, e: Event, authors: set<Uuid>): Option<seq<Entry>> {
    if e.post.author !in authors then list
    else if e.kind.CREATED? then Some(Take([Entry(e.post, e.postId)] + list.GetOr([]), FEED_LENGTH + 1))
    else None
  }

  function Replayed(list: Option<seq<Entry>>, queue: seq<Event>, authors: set<Uuid>): Option<seq<Entry>> {
    if queue == [] then list
    else Absorbed(Replayed(list, queue[..|queue| - 1], authors), queue[|queue| - 1], authors)
  }

  /** The list the reader will have when the queue has been handled. */
  function Projected(s: State, user: Uuid): Option<seq<Entry>> {
    Replayed(Lookup(s.cache, user), s.queue, Follows(s.friends, user))
  }

  lemma {:induction false} ReplayedFromFirst(list: Option<seq<Entry>>, queue: seq<Event>, authors: set<Uuid>)
    requires queue != []
    ensures Replayed(list, queue, authors) == Replayed(Absorbed(list, queue[0], authors), queue[1..], authors)
  {
    if |queue| == 1 {
    } else {
      ReplayedFromFirst(list, queue[..|queue| - 1], authors);
      assert queue[1..][..|queue| - 2] == queue[..|queue| - 1][1..];
    }
  }

  /** Without duplicate friend rows the consumer does to every reader's list what the event
      means for that list. */
  lemma ConsumerAbsorbs(s: State, e: Event, user: Uuid)
    requires UniquePairs(s.friends)
    ensures Lookup(Consumed(false, s.cache, e, Followers(s.friends, e.post.author)), user)
         == Absorbed(Lookup(s.cache, user), e, Follows(s.friends, user))
  {
    var users := Followers(s.friends, e.post.author);
    FollowersAreReaders(s.friends, user, e.post.author);
    FollowersCountPairs(s.friends, user, e.post.author);
    assert user in users <==> user in multiset(users);
    if e.kind.CREATED? {
      if user in users {
        assert |PairRows(s.friends, user, e.post.author)| <= 1;
        PushedAllOnce(s.cache, users, Entry(e.post, e.postId), user);
      } else {
        PushedAllElsewhere(s.cache, users, Entry(e.post, e.postId), user);
      }
    }
  }

  /** Handling the next message in order changes nothing about where the queue leads. */
  lemma DeliveryKeepsProjection(s: State, user: Uuid)
    requires UniquePairs(s.friends) && s.queue != []
    ensures Projected(Next(false, s, Deliver(0, true)), user) == Projected(s, user)
  {
    var s' := Next(false, s, Deliver(0, true));
    var authors := Follows(s.friends, user);
    ConsumerAbsorbs(s, s.queue[0], user);
    assert Lookup(s'.cache, user) == Absorbed(Lookup(s.cache, user), s.queue[0], authors);
    assert s'.queue == s.queue[1..];
    ReplayedFromFirst(Lookup(s.cache, user), s.queue, authors);
  }

  /** A write acts on where the queue leads as if the list were maintained at once. */
  lemma WriteActsOnProjection(s: State, t: Step, user: Uuid)
    requires t.Create? || t.Update? || t.Delete?
    requires Enabled(s, t)
    ensures var s' := Next(false, s, t);
            Projected(s', user) == Absorbed(Projected(s, user), s'.queue[|s.queue|], Follows(s.friends, user))
  {
    var s' := Next(false, s, t);
    assert s'.queue[..|s.queue|] == s.queue;
  }

  // ======== lag =============================================================================

  /** Once the queue is handled the reader has no list, or a list whose first FEED_LENGTH
      places read as the query's result does. */
  ghost predicate Settles(s: State, user: Uuid) {
    var l := Projected(s, user);
    l.Some? ==> ReadsAs(l.value, Fresh(false, s, user))
  }

  ghost predicate ReadsAs(list: seq<Entry>, posts: seq<Post>) {
    Views(Take(PostsOf(list), FEED_LENGTH)) == Views(posts)
  }

  ghost predicate NewestNow(s: State, now: int) {
    forall r | r in s.rows :: r.updated < now
  }

  lemma ViewsOfShorter(a: seq<Post>, b: seq<Post>, n: nat)
    requires Views(Take(a, n + 1)) == Views(Take(b, n + 1))
    ensures Views(Take(a, n)) == Views(Take(b, n))
  {
    forall i | 0 <= i < |Take(a, n)| ensures i < |Take(b, n)| && ViewOf(a[i]) == ViewOf(b[i]) {
      assert Views(Take(a, n + 1))[i] == Views(Take(b, n + 1))[i];
    }
    assert |Views(Take(a, n + 1))| == |Views(Take(b, n + 1))|;
  }

  lemma PushedReadsAs(list: seq<Entry>, x: Entry, ordered: seq<Post>, row: Post)
    requires ReadsAs(list, Take(ordered, FEED_LENGTH)) && ViewOf(row) == ViewOf(x.post)
    ensures ReadsAs(Take([x] + list, FEED_LENGTH + 1), [row] + Take(ordered, FEED_LENGTH - 1))
  {
    var pushed := Take([x] + list, FEED_LENGTH + 1);
    assert Take(PostsOf(pushed), FEED_LENGTH) == [x.post] + Take(PostsOf(list), FEED_LENGTH - 1);
    ViewsOfShorter(PostsOf(list), ordered, FEED_LENGTH - 1);
    assert Views([x.post] + Take(PostsOf(list), FEED_LENGTH - 1))
        == [ViewOf(x.post)] + Views(Take(PostsOf(list), FEED_LENGTH - 1));
    assert Views([row] + Take(ordered, FEED_LENGTH - 1))
        == [ViewOf(row)] + Views(Take(ordered, FEED_LENGTH - 1));
  }

  /** A creation by a followed author, newer than the table, keeps the lag harmless exactly
      when there is a list to push onto or the feed was empty. */
  lemma CreationSettlesIff(s: State, post: Post, rowId: Uuid, now: int, user: Uuid)
    requires Enabled(s, Create(post, rowId, now)) && NewestNow(s, now)
    requires post.author in Follows(s.friends, user)
    requires Settles(s, user)
    ensures Settles(Next(false, s, Create(post, rowId, now)), user)
       <==> Projected(s, user).Some? || Fresh(false, s, user) == []
  {
    var t := Create(post, rowId, now);
    var s' := Next(false, s, t);
    var authors := Follows(s.friends, user);
    var row := RowOf(post, rowId, now);
    var x := Entry(post, rowId);
    var ordered := OrderByUpdatedDesc(ByAuthors(s.rows, authors));
    WriteActsOnProjection(s, t, user);
    NewestRowComesFirst(row, s.rows, authors);
    var l := Projected(s, user);
    if l.Some? {
      PushedReadsAs(l.value, x, ordered, row);
    } else {
      assert Projected(s', user) == Some([x]) by {
        assert Take([x] + [], FEED_LENGTH + 1) == [x];
      }
      assert |Views(Take(PostsOf([x]), FEED_LENGTH))| == 1;
      if Fresh(false, s, user) == [] {
        assert Fresh(false, s', user) == [row];
        assert Take(PostsOf([x]), FEED_LENGTH) == [post];
        assert Views([post]) == Views([row]);
      } else {
        assert |Views(Fresh(false, s', user))| > 1;
      }
    }
  }

  /** The step drops the coming list, or changes neither it nor the feed. */
  ghost predicate DropsOrKeeps(s: State, s': State, user: Uuid) {
    Projected(s', user).None?
    || (Projected(s', user) == Projected(s, user) && Fresh(false, s', user) == Fresh(false, s, user))
  }

  lemma DroppingWriteDropsOrKeeps(s: State, t: Step, user: Uuid)
    requires t.Update? || t.Delete?
    requires Enabled(s, t) && RowsIssued(s)
    ensures DropsOrKeeps(s, Next(false, s, t), user)
  {
    WriteActsOnProjection(s, t, user);
    if t.post.author !in Follows(s.friends, user) {
      FeedOnePost.WriteOfOthers(false, s, t, user);
    }
  }

  /** Updates and deletions need no condition: they only drop lists. */
  lemma DroppingWriteSettles(s: State, t: Step, user: Uuid)
    requires t.Update? || t.Delete?
    requires Enabled(s, t) && RowsIssued(s) && Settles(s, user)
    ensures Settles(Next(false, s, t), user)
  {
    DroppingWriteDropsOrKeeps(s, t, user);
  }

  // ---- events on the way while a list is filled or invalidated ------------------------------

  predicate Concerned(e: Event, authors: set<Uuid>) {
    e.post.author in authors
  }

  /** No followed author's creation is the last of that reader's pending events. */
  ghost predicate NoPushOnTheWay(queue: seq<Event>, authors: set<Uuid>) {
    forall i | 0 <= i < |queue| && Concerned(queue[i], authors) && queue[i].kind.CREATED? ::
      exists j :: i < j < |queue| && Concerned(queue[j], authors) && !queue[j].kind.CREATED?
  }

  ghost predicate DropOnTheWay(queue: seq<Event>, authors: set<Uuid>) {
    exists j :: 0 <= j < |queue| && Concerned(queue[j], authors) && !queue[j].kind.CREATED?
  }

  lemma {:induction false} ReplayWithoutPush(list: Option<seq<Entry>>, queue: seq<Event>, authors: set<Uuid>)
    requires NoPushOnTheWay(queue, authors)
    ensures DropOnTheWay(queue, authors) ==> Replayed(list, queue, authors).None?
    ensures !DropOnTheWay(queue, authors) ==> Replayed(list, queue, authors) == list
    decreases |queue|
  {
    if queue == [] {
    } else {
      var rest := queue[1..];
      NoPushInRest(queue, authors);
      ReplayedFromFirst(list, queue, authors);
      ReplayWithoutPush(Absorbed(list, queue[0], authors), rest, authors);
      DropIsFirstOrInRest(queue, authors);
    }
  }

  lemma DropIsFirstOrInRest(queue: seq<Event>, authors: set<Uuid>)
    requires queue != []
    ensures DropOnTheWay(queue, authors)
       <==> (Concerned(queue[0], authors) && !queue[0].kind.CREATED?) || DropOnTheWay(queue[1..], authors)
  {
    var rest := queue[1..];
    assert forall j | 0 < j < |queue| :: queue[j] == rest[j - 1];
    assert forall j | 0 <= j < |rest| :: rest[j] == queue[j + 1];
  }

  lemma NoPushInRest(queue: seq<Event>, authors: set<Uuid>)
    requires queue != [] && NoPushOnTheWay(queue, authors)
    ensures NoPushOnTheWay(queue[1..], authors)
    ensures Concerned(queue[0], authors) && queue[0].kind.CREATED? ==> DropOnTheWay(queue[1..], authors)
  {
    var rest := queue[1..];
    forall i | 0 <= i < |rest| && Concerned(rest[i], authors) && rest[i].kind.CREATED?
      ensures exists j :: i < j < |rest| && Concerned(rest[j], authors) && !rest[j].kind.CREATED?
    {
      assert queue[i + 1] == rest[i];
      var j :| i + 1 < j < |queue| && Concerned(queue[j], authors) && !queue[j].kind.CREATED?;
      assert rest[j - 1] == queue[j];
    }
    if Concerned(queue[0], authors) && queue[0].kind.CREATED? {
      var j :| 0 < j < |queue| && Concerned(queue[j], authors) && !queue[j].kind.CREATED?;
      assert rest[j - 1] == queue[j];
    }
  }

  lemma FillSettles(s: State, user: Uuid)
    requires user !in s.cache && NoPushOnTheWay(s.queue, Follows(s.friends, user))
    ensures Settles(Next(false, s, Read(user)), user)
  {
    var s' := Next(false, s, Read(user));
    var posts := Fresh(false, s, user);
    ReplayWithoutPush(Lookup(s'.cache, user), s.queue, Follows(s.friends, user));
    EntriesRoundTrip(posts);
  }

  function CountConcerned(queue: seq<Event>, authors: set<Uuid>): nat {
    if queue == [] then 0
    else CountConcerned(queue[..|queue| - 1], authors)
         + (if Concerned(queue[|queue| - 1], authors) then 1 else 0)
  }

  lemma {:induction false} ReplayOfPushesLength(list: Option<seq<Entry>>, queue: seq<Event>, authors: set<Uuid>)
    requires !DropOnTheWay(queue, authors) && |list.GetOr([])| <= FEED_LENGTH
    ensures |Replayed(list, queue, authors).GetOr([])|
         == Min(FEED_LENGTH + 1, |list.GetOr([])| + CountConcerned(queue, authors))
  {
    if queue == [] {
    } else {
      var front := queue[..|queue| - 1];
      assert forall j | 0 <= j < |front| :: front[j] == queue[j];
      ReplayOfPushesLength(list, front, authors);
    }
  }

  /** Filling a list while only creations are pending for its reader: the query already
      returns their rows, so every pending creation will appear twice. Short of a full feed
      the list comes out right exactly when nothing is pending. */
  lemma FillDuringCreationsSettlesIff(s: State, user: Uuid)
    requires user !in s.cache && |Fresh(false, s, user)| < FEED_LENGTH
    requires !DropOnTheWay(s.queue, Follows(s.friends, user))
    ensures Settles(Next(false, s, Read(user)), user)
       <==> forall e | e in s.queue :: !Concerned(e, Follows(s.friends, user))
  {
    var authors := Follows(s.friends, user);
    var s' := Next(false, s, Read(user));
    var list := Lookup(s'.cache, user);
    var posts := Fresh(false, s, user);
    ReplayOfPushesLength(list, s.queue, authors);
    NoneConcernedIff(s.queue, authors);
    if CountConcerned(s.queue, authors) == 0 {
      FillSettles(s, user);
    } else {
      var l := Projected(s', user);
      assert |l.GetOr([])| > |posts|;
      assert |Views(Take(PostsOf(l.value), FEED_LENGTH))| > |Views(posts)|;
    }
  }

  lemma {:induction false} NoneConcernedIff(queue: seq<Event>, authors: set<Uuid>)
    ensures CountConcerned(queue, authors) == 0 <==> forall e | e in queue :: !Concerned(e, authors)
    ensures CountConcerned(queue, authors) == 0 ==> NoPushOnTheWay(queue, authors)
  {
    if queue == [] {
    } else {
      var last, front := queue[|queue| - 1], queue[..|queue| - 1];
      assert queue == front + [last];
      NoneConcernedIff(front, authors);
    }
  }

  // ---- runs -------------------------------------------------------------------------------

  /** Messages are handled once and in order, the clock does not go back, and no push is on the
      way when the reader's list is filled or invalidated. */
  ghost predicate Orderly(s: State, t: Step, user: Uuid) {
    var authors := Follows(s.friends, user);
    match t
    case Read(v) => v == user && user !in s.cache ==> NoPushOnTheWay(s.queue, authors)
    case Create(post, rowId, now) => post.author in authors ==> NewestNow(s, now)
    case Deliver(i, acked) => i == 0 && acked
    case DeliverPart(_, _) => false
    case FriendSet(f) =>
      f.user == user || user in Follows(s.friends, f.user) ==>
        NoPushOnTheWay(s.queue, Follows(Next(false, s, t).friends, user))
    case FriendDelete(v, _) =>
      v == user || user in Follows(s.friends, v) ==>
        NoPushOnTheWay(s.queue, Follows(Next(false, s, t).friends, user))
    case _ => true
  }

  /** Beside that, a creation finds a list to push onto, or an empty feed. */
  ghost predicate Granted(s: State, t: Step, user: Uuid) {
    && Orderly(s, t, user)
    && (t.Create? && t.post.author in Follows(s.friends, user) ==>
          Projected(s, user).Some? || Fresh(false, s, user) == [])
  }

  /** A step taken while the queue is empty is orderly, if the clock does not go back. */
  lemma OrderlyWhenDrained(s: State, t: Step, user: Uuid)
    requires Enabled(s, t) && s.queue == [] && (t.Create? ==> NewestNow(s, t.now))
    ensures Orderly(s, t, user)
  {
  }

  lemma FriendsDropOrKeep(s: State, t: Step, user: Uuid)
    requires t.FriendSet? || t.FriendDelete?
    requires Orderly(s, t, user)
    ensures DropsOrKeeps(s, Next(false, s, t), user)
  {
    var s' := Next(false, s, t);
    var changer := if t.FriendSet? then t.row.user else t.user;
    if s' != s {
      if changer == user || user in Follows(s.friends, changer) {
        assert user !in s'.cache;
        ReplayWithoutPush(None, s.queue, Follows(s'.friends, user));
      } else {
        assert Follows(s'.friends, user) == Follows(s.friends, user);
      }
    }
  }

  lemma FriendsSettle(s: State, t: Step, user: Uuid)
    requires t.FriendSet? || t.FriendDelete?
    requires Granted(s, t, user) && Settles(s, user)
    ensures Settles(Next(false, s, t), user)
  {
    FriendsDropOrKeep(s, t, user);
  }

  lemma StepSettles(s: State, t: Step, user: Uuid)
    requires Enabled(s, t) && Granted(s, t, user)
    requires TablesSound(s) && Settles(s, user)
    ensures Settles(Next(false, s, t), user)
  {
    match t
    case Read(v) =>
      if v == user && user !in s.cache { FillSettles(s, user); }
    case Create(post, rowId, now) =>
      if post.author in Follows(s.friends, user) {
        CreationSettlesIff(s, post, rowId, now, user);
      } else {
        WriteActsOnProjection(s, t, user);
        FeedOnePost.WriteOfOthers(false, s, t, user);
      }
    case Deliver(_, _) => DeliveryKeepsProjection(s, user);
    case FriendSet(_) => FriendsSettle(s, t, user);
    case FriendDelete(_, _) => FriendsSettle(s, t, user);
    case _ => DroppingWriteSettles(s, t, user);
  }

  ghost predicate GrantedRun(s: State, ts: seq<Step>, user: Uuid)
    requires IsRun(false, s, ts)
    decreases |ts|
  {
    ts == [] || (Granted(s, ts[0], user) && GrantedRun(Next(false, s, ts[0]), ts[1..], user))
  }

  lemma {:induction false} SettlesAfterEveryRun(s: State, ts: seq<Step>, user: Uuid)
    requires IsRun(false, s, ts) && GrantedRun(s, ts, user)
    requires TablesSound(s) && Settles(s, user)
    ensures Settles(After(false, s, ts), user)
    decreases |ts|
  {
    if ts == [] {
    } else {
      TablesStaySound(false, s, ts[0]);
      StepSettles(s, ts[0], user);
      SettlesAfterEveryRun(Next(false, s, ts[0]), ts[1..], user);
    }
  }

  /** After a granted run from an initial state, whenever the queue is empty the reader's list
      is absent or reads as the query's result in its first FEED_LENGTH places. */
  lemma DrainedListReadsFresh(s: State, ts: seq<Step>, user: Uuid)
    requires Initial(s) && IsRun(false, s, ts) && GrantedRun(s, ts, user)
    requires After(false, s, ts).queue == []
    ensures var z := After(false, s, ts);
            user in z.cache ==> ReadsAs(z.cache[user], Fresh(false, z, user))
  {
    InitiallySound(false, s);
    SettlesAfterEveryRun(s, ts, user);
  }

  // ---- pushes onto absent lists ---------------------------------------------------------------

  /** The first FEED_LENGTH places of the list read as the top of the posts. */
  ghost predicate ReadsAsTop(list: seq<Entry>, posts: seq<Post>) {
    Views(Take(PostsOf(list), FEED_LENGTH)) <= Views(posts)
  }

  ghost predicate SettlesAsTop(s: State, user: Uuid) {
    var l := Projected(s, user);
    l.Some? ==> ReadsAsTop(l.value, Fresh(false, s, user))
  }

  /** A list that reads as the top of the feed reads as the feed exactly when it is as long. */
  lemma ReadsAsIffAsLong(list: seq<Entry>, posts: seq<Post>)
    requires ReadsAsTop(list, posts) && |posts| <= FEED_LENGTH
    ensures ReadsAs(list, posts) <==> |list| >= |posts|
  {
    assert |Views(Take(PostsOf(list), FEED_LENGTH))| == Min(FEED_LENGTH, |list|);
  }

  lemma ViewsOfShorterTop(a: seq<Post>, b: seq<Post>, n: nat)
    requires Views(Take(a, n + 1)) <= Views(Take(b, n + 1))
    ensures Views(Take(a, n)) <= Views(Take(b, n))
  {
    forall i | 0 <= i < |Take(a, n)| ensures i < |Take(b, n)| && ViewOf(a[i]) == ViewOf(b[i]) {
      assert Views(Take(a, n + 1))[i] == Views(Take(b, n + 1))[i];
    }
  }

  lemma PushedReadsAsTop(list: seq<Entry>, x: Entry, ordered: seq<Post>, row: Post)
    requires ReadsAsTop(list, Take(ordered, FEED_LENGTH)) && ViewOf(row) == ViewOf(x.post)
    ensures ReadsAsTop(Take([x] + list, FEED_LENGTH + 1), [row] + Take(ordered, FEED_LENGTH - 1))
  {
    var pushed := Take([x] + list, FEED_LENGTH + 1);
    assert Take(PostsOf(pushed), FEED_LENGTH) == [x.post] + Take(PostsOf(list), FEED_LENGTH - 1);
    ViewsOfShorterTop(PostsOf(list), ordered, FEED_LENGTH - 1);
    assert Views([x.post] + Take(PostsOf(list), FEED_LENGTH - 1))
        == [ViewOf(x.post)] + Views(Take(PostsOf(list), FEED_LENGTH - 1));
    assert Views([row] + Take(ordered, FEED_LENGTH - 1))
        == [ViewOf(row)] + Views(Take(ordered, FEED_LENGTH - 1));
  }

  lemma CreationSettlesAsTop(s: State, post: Post, rowId: Uuid, now: int, user: Uuid)
    requires Enabled(s, Create(post, rowId, now)) && NewestNow(s, now)
    requires post.author in Follows(s.friends, user) && SettlesAsTop(s, user)
    ensures SettlesAsTop(Next(false, s, Create(post, rowId, now)), user)
  {
    var authors, row := Follows(s.friends, user), RowOf(post, rowId, now);
    var ordered := OrderByUpdatedDesc(ByAuthors(s.rows, authors));
    WriteActsOnProjection(s, Create(post, rowId, now), user);
    NewestRowComesFirst(row, s.rows, authors);
    PushedReadsAsTop(Projected(s, user).GetOr([]), Entry(post, rowId), ordered, row);
  }

  lemma StepSettlesAsTop(s: State, t: Step, user: Uuid)
    requires Enabled(s, t) && Orderly(s, t, user)
    requires TablesSound(s) && SettlesAsTop(s, user)
    ensures SettlesAsTop(Next(false, s, t), user)
  {
    match t
    case Read(v) =>
      if v == user && user !in s.cache { FillSettles(s, user); }
    case Create(post, rowId, now) =>
      if post.author in Follows(s.friends, user) {
        CreationSettlesAsTop(s, post, rowId, now, user);
      } else {
        WriteActsOnProjection(s, t, user);
        FeedOnePost.WriteOfOthers(false, s, t, user);
      }
    case Deliver(_, _) => DeliveryKeepsProjection(s, user);
    case FriendSet(_) => FriendsDropOrKeep(s, t, user);
    case FriendDelete(_, _) => FriendsDropOrKeep(s, t, user);
    case _ => DroppingWriteDropsOrKeeps(s, t, user);
  }

  ghost predicate OrderlyRun(s: State, ts: seq<Step>, user: Uuid)
    requires IsRun(false, s, ts)
    decreases |ts|
  {
    ts == [] || (Orderly(s, ts[0], user) && OrderlyRun(Next(false, s, ts[0]), ts[1..], user))
  }

  /** Without asking for a list to push onto: the list the queue leads to always reads as the top
      of what the query returns, and as all of it exactly when it is as long. */
  lemma {:induction false} PrefixAfterEveryRun(s: State, ts: seq<Step>, user: Uuid)
    requires IsRun(false, s, ts) && OrderlyRun(s, ts, user)
    requires TablesSound(s) && SettlesAsTop(s, user)
    ensures var z := After(false, s, ts);
            && SettlesAsTop(z, user)
            && (Settles(z, user) <==>
                  (Projected(z, user).Some? ==> |Projected(z, user).value| >= |Fresh(false, z, user)|))
    decreases |ts|
  {
    if ts == [] {
      FreshIsFollowed(false, s, user);
      var l := Projected(s, user);
      if l.Some? { ReadsAsIffAsLong(l.value, Fresh(false, s, user)); }
    } else {
      TablesStaySound(false, s, ts[0]);
      StepSettlesAsTop(s, ts[0], user);
      PrefixAfterEveryRun(Next(false, s, ts[0]), ts[1..], user);
    }
  }

  /** After an orderly run from an initial state, whenever the queue is empty, the reader's list
      is absent or reads as the top of the query's result. */
  lemma DrainedListReadsAsTop(s: State, ts: seq<Step>, user: Uuid)
    requires Initial(s) && IsRun(false, s, ts) && OrderlyRun(s, ts, user)
    requires After(false, s, ts).queue == []
    ensures var z := After(false, s, ts);
            user in z.cache ==>
              && ReadsAsTop(z.cache[user], Fresh(false, z, user))
              && (ReadsAs(z.cache[user], Fresh(false, z, user)) <==> |z.cache[user]| >= |Fresh(false, z, user)|)
  {
    InitiallySound(false, s);
    PrefixAfterEveryRun(s, ts, user);
  }

  // ---- a reader who keeps a list ------------------------------------------------------------

  /** Posts are created, with a clock that does not go back, events are handled in order and
      anybody reads. */
  ghost predicate OnlyCreations(s: State, ts: seq<Step>)
    requires IsRun(false, s, ts)
    decreases |ts|
  {
    ts == [] ||
    (&& (ts[0].Create? || ts[0].Read? || ts[0] == Deliver(0, true))
     && (ts[0].Create? ==> NewestNow(s, ts[0].now))
     && OnlyCreations(Next(false, s, ts[0]), ts[1..]))
  }

  lemma CreationsKeepList(s: State, t: Step, user: Uuid)
    requires Enabled(s, t) && UniquePairs(s.friends)
    requires t.Create? || t.Read? || t == Deliver(0, true)
    requires user in s.cache && !DropOnTheWay(s.queue, Follows(s.friends, user))
    ensures var s' := Next(false, s, t);
            user in s'.cache && !DropOnTheWay(s'.queue, Follows(s'.friends, user))
  {
    var s' := Next(false, s, t);
    var authors := Follows(s.friends, user);
    match t
    case Deliver(_, _) =>
      ConsumerAbsorbs(s, s.queue[0], user);
      DropIsFirstOrInRest(s.queue, authors);
      assert s'.queue == s.queue[1..];
    case Create(_, _, _) =>
      assert forall j | 0 <= j < |s.queue| :: s'.queue[j] == s.queue[j];
    case Read(_) =>
  }

  lemma {:induction false} PresentListHasProjection(list: Option<seq<Entry>>, queue: seq<Event>, authors: set<Uuid>)
    requires list.Some? && !DropOnTheWay(queue, authors)
    ensures Replayed(list, queue, authors).Some?
  {
    if queue == [] {
    } else {
      var front := queue[..|queue| - 1];
      assert forall j | 0 <= j < |front| :: front[j] == queue[j];
      PresentListHasProjection(list, front, authors);
    }
  }

  /** While a reader's list is present and only creations happen, pushing the pending events
      in order onto the list always gives what the query returns now. */
  lemma {:induction false} PresentListKeepsUp(s: State, ts: seq<Step>, user: Uuid)
    requires IsRun(false, s, ts) && OnlyCreations(s, ts)
    requires TablesSound(s) && Settles(s, user)
    requires user in s.cache && !DropOnTheWay(s.queue, Follows(s.friends, user))
    ensures var z := After(false, s, ts);
            && user in z.cache && Projected(z, user).Some?
            && ReadsAs(Projected(z, user).value, Fresh(false, z, user))
    decreases |ts|
  {
    PresentListHasProjection(Lookup(s.cache, user), s.queue, Follows(s.friends, user));
    if ts == [] {
    } else {
      TablesStaySound(false, s, ts[0]);
      CreationsKeepList(s, ts[0], user);
      StepSettles(s, ts[0], user);
      PresentListKeepsUp(Next(false, s, ts[0]), ts[1..], user);
    }
  }
}
