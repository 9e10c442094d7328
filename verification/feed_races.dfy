/** What the protocol loses when a handler is not one step, and what a reader sees of it. */
module FeedRaces {
  import opened Options
  import opened Posts
  import opened Friends
  import opened RedisLists
  import opened FeedModel
  import opened FeedSafety
  import opened FeedOnePost
  import Dedup
  import FeedDefault

  // ---- selecting from fewer authors ---------------------------------------------------------

  /** Sorting and then leaving authors out is leaving them out and then sorting. */
  lemma OrderThenFilter(rows: seq<Post>, some: set<Uuid>, all: set<Uuid>)
    requires UniqueIds(rows) && some <= all
    ensures ByAuthors(OrderByUpdatedDesc(ByAuthors(rows, all)), some)
         == OrderByUpdatedDesc(ByAuthors(rows, some))
  {
    var wide := OrderByUpdatedDesc(ByAuthors(rows, all));
    var a := ByAuthors(wide, some);
    var b := OrderByUpdatedDesc(ByAuthors(rows, some));
    OrderKeepsRows(ByAuthors(rows, all));
    OrderKeepsRows(ByAuthors(rows, some));
    OrderIsNewestFirst(ByAuthors(rows, all));
    OrderIsNewestFirst(ByAuthors(rows, some));
    ByAuthorsKeepsOrder(wide, some);
    ByAuthorsUnique(rows, some);
    OrderUnique(ByAuthors(rows, some));
    forall p ensures multiset(a)[p] == multiset(b)[p] {
      ByAuthorsCounts(wide, some, p);
      ByAuthorsCounts(rows, all, p);
      ByAuthorsCounts(rows, some, p);
    }
    OrderIsUnique(b, a);
  }

  lemma {:induction false} FilterOfCommonPrefix(s: seq<Post>, n: nat, authors: set<Uuid>)
    requires forall p | p in Take(s, n) :: p.author in authors
    ensures Take(ByAuthors(s, authors), n) == Take(s, n)
    decreases n
  {
    if s == [] || n == 0 {
    } else {
      var first, rest := s[0], s[1..];
      assert s == [first] + rest;
      TakeOfPrepended(first, rest, n - 1);
      assert first in [first] + Take(rest, n - 1);
      FilterOfCommonPrefix(rest, n - 1, authors);
      ByAuthorsOfPrepended(first, rest, authors);
      TakeOfPrepended(first, ByAuthors(rest, authors), n - 1);
    }
  }

  /** Following one author more changes the query's result exactly when a post by that author
      is in the new result. */
  lemma NewAuthorShowsIff(rows: seq<Post>, authors: set<Uuid>, author: Uuid)
    requires UniqueIds(rows) && author !in authors
    ensures Selected(rows, authors + {author}) == Selected(rows, authors)
       <==> forall p | p in Selected(rows, authors + {author}) :: p.author != author
  {
    var all := authors + {author};
    var wide := OrderByUpdatedDesc(ByAuthors(rows, all));
    SelectedIsNewestByAuthors(rows, authors);
    SelectedIsNewestByAuthors(rows, all);
    if forall p | p in Selected(rows, all) :: p.author != author {
      OrderThenFilter(rows, authors, all);
      FilterOfCommonPrefix(wide, FEED_LENGTH, authors);
    }
  }

  // ---- friend_set in two halves ---------------------------------------------------------------

  /** The invalidation, a read by the same user in the gap, then the write. */
  function GapRead(onePost: bool, s: State, f: Friend): State {
    var invalidated := s.(cache := Invalidated(s, f.user));
    var filled := Next(onePost, invalidated, Read(f.user));
    filled.(friends := filled.friends + [f])
  }

  lemma DedupTellsNewAuthor(before: seq<Post>, after: seq<Post>, p: Post)
    requires p in after && forall q | q in before :: q.author != p.author
    ensures Dedup.Deduped(before) != Dedup.Deduped(after)
  {
    Dedup.DedupKeepsEveryAuthor(before);
    Dedup.DedupKeepsEveryAuthor(after);
    assert p.author in Dedup.Authors(after);
    assert p.author !in Dedup.Authors(before);
  }

  lemma SameAuthorsSameFeed(s: State, f: Friend)
    requires UniqueIds(s.rows) && f.friend !in Follows(s.friends, f.user)
    ensures Fresh(true, GapRead(true, s, f), f.user) == Fresh(true, s, f.user)
       <==> forall p | p in Selected(s.rows, Follows(s.friends + [f], f.user)) :: p.author != f.friend
  {
    var authors := Follows(s.friends, f.user);
    var all := Follows(s.friends + [f], f.user);
    assert all == authors + {f.friend};
    NewAuthorShowsIff(s.rows, authors, f.friend);
    var before, after := Selected(s.rows, authors), Selected(s.rows, all);
    if p :| p in after && p.author == f.friend {
      SelectedIsNewestByAuthors(s.rows, authors);
      DedupTellsNewAuthor(before, after, p);
    }
  }

  /** A list filled in the gap between the two halves of `friend_set` stays wrong, with no
      event left to repair it, exactly when the new friend has a post in the new feed. */
  lemma GapReadGoesStaleIff(s: State, f: Friend)
    requires UniqueIds(s.rows) && f.friend !in Follows(s.friends, f.user)
    requires s.queue == [] && Fresh(true, s, f.user) != []
    ensures Covered(GapRead(true, s, f), f.user)
       <==> forall p | p in Selected(s.rows, Follows(s.friends + [f], f.user)) :: p.author != f.friend
  {
    var z := GapRead(true, s, f);
    SameAuthorsSameFeed(s, f);
    assert !Pending(z, f.user);
    assert z.cache[f.user] == Entries(Fresh(true, s, f.user));
    EntriesRoundTrip(Fresh(true, s, f.user));
    EntriesRoundTrip(Fresh(true, z, f.user));
  }

  // ---- duplicate friend rows ------------------------------------------------------------------

  /** A creation reaches a reader's list once per row of the friend relation. */
  lemma CreationPushedOncePerRow(s: State, e: Event, user: Uuid)
    requires e.kind.CREATED? && e.post.author in Follows(s.friends, user)
    ensures var c := Consumed(false, s.cache, e, Followers(s.friends, e.post.author));
            user in c && c[user] == Take(Copies(Entry(e.post, e.postId), |PairRows(s.friends, user, e.post.author)|)
                                         + At(s.cache, user), FEED_LENGTH + 1)
  {
    FollowersAreReaders(s.friends, user, e.post.author);
    FollowersCountPairs(s.friends, user, e.post.author);
    PushedAllCounts(s.cache, Followers(s.friends, e.post.author), Entry(e.post, e.postId), user);
  }

  // ---- the identifier of a pushed post ------------------------------------------------------------

  /** A creation event carries the application's object. A post pushed from it is served with
      an identifier under which the table has no row. */
  lemma PushedPostNamesNoRow(s: State, post: Post, rowId: Uuid, now: int, user: Uuid)
    requires TablesSound(s) && s.queue == [] && post.author in Follows(s.friends, user)
    requires rowId !in s.issued && post.id !in s.issued && post.id != rowId
    ensures var z := Next(false, Next(false, s, Create(post, rowId, now)), Deliver(0, true));
            && user in z.cache && z.cache[user] != [] && z.cache[user][0].post == post
            && forall r | r in z.rows :: r.id != post.id
  {
    var t := Create(post, rowId, now);
    var s' := Next(false, s, t);
    TablesStaySound(false, s, t);
    FeedDefault.ConsumerAbsorbs(s', s'.queue[0], user);
  }

  // ---- the default mode without order -------------------------------------------------------------

  /** Two messages about one post, handled in the wrong order: the default mode ends with an
      empty queue and a cached post that shows the old content. */
  lemma ReorderedDeliveryServesOutdated(s: State, post: Post, rowId: Uuid, text: string, now: int, later: int, user: Uuid)
    requires TablesSound(s) && s.queue == [] && rowId !in s.issued && text != post.content
    requires post.author in Follows(s.friends, user)
    ensures var s1 := Next(false, s, Create(post, rowId, now));
            var edited := post.(id := rowId, content := text);
            Enabled(s1, Update(edited, later)) && |Next(false, s1, Update(edited, later)).queue| == 2
    ensures var s1 := Next(false, s, Create(post, rowId, now));
            var s2 := Next(false, s1, Update(post.(id := rowId, content := text), later));
            var z := Next(false, Next(false, s2, Deliver(1, true)), Deliver(0, true));
            && z.queue == [] && user in z.cache && z.cache[user] == [Entry(post, rowId)]
            && !FeedDefault.Live(z, Entry(post, rowId))
  {
    var s1 := Next(false, s, Create(post, rowId, now));
    var edited := post.(id := rowId, content := text);
    TablesStaySound(false, s, Create(post, rowId, now));
    var s2 := Next(false, s1, Update(edited, later));
    assert s2.queue == [Event(CREATED, rowId, post), Event(UPDATED, rowId, edited)];
    var s3 := Next(false, s2, Deliver(1, true));
    FeedDefault.ConsumerAbsorbs(s2, s2.queue[1], user);
    assert s3.queue == [Event(CREATED, rowId, post)];
    var z := Next(false, s3, Deliver(0, true));
    FeedDefault.ConsumerAbsorbs(s3, s3.queue[0], user);
    assert FeedDefault.Lookup(s3.cache, user) == None;
    assert [Entry(post, rowId)] + [] == [Entry(post, rowId)];
    OnlyEditedContent(s1.rows, edited, later);
  }

  lemma OnlyEditedContent(rows: seq<Post>, edited: Post, later: int)
    ensures forall r | r in UpdatedRows(rows, edited, later) && r.id == edited.id :: r.content == edited.content
  {
  }

  /** A creation that is delivered twice appears twice: in the default mode consuming is not
      idempotent. */
  lemma RedeliveryPushesTwice(s: State, user: Uuid)
    requires UniquePairs(s.friends) && s.queue != [] && s.queue[0].kind.CREATED?
    requires s.queue[0].post.author in Follows(s.friends, user)
    ensures var x := Entry(s.queue[0].post, s.queue[0].postId);
            var z := Next(false, Next(false, s, Deliver(0, false)), Deliver(0, true));
            user in z.cache && z.cache[user] == Take([x, x] + At(s.cache, user), FEED_LENGTH + 1)
  {
    var x := Entry(s.queue[0].post, s.queue[0].postId);
    var s1 := Next(false, s, Deliver(0, false));
    FeedDefault.ConsumerAbsorbs(s, s.queue[0], user);
    assert At(s1.cache, user) == Take([x] + At(s.cache, user), FEED_LENGTH + 1);
    FeedDefault.ConsumerAbsorbs(s1, s1.queue[0], user);
    PrependTwice(x, At(s.cache, user), FEED_LENGTH + 1);
  }

  lemma PrependTwice(x: Entry, list: seq<Entry>, n: nat)
    ensures Take([x] + Take([x] + list, n), n) == Take([x, x] + list, n)
  {
    assert [x, x] + list == [x] + ([x] + list);
  }
}
