/** What goes wrong in the one-post mode without each part of `Undisturbed`. */
module FeedDisturbed {
  import opened Posts
  import opened Friends
  import opened RedisLists
  import opened FeedModel
  import opened FeedSafety
  import opened FeedUnlocked
  import Dedup
  import FeedRaces

  lemma {:induction false} DedupKeepsFirst(posts: seq<Post>)
    requires posts != []
    ensures Dedup.Deduped(posts)[0] == posts[0]
  {
    if |posts| > 1 {
      DedupKeepsFirst(posts[..|posts| - 1]);
    }
  }

  /** A list that does not start with the newest row is not right. */
  lemma NewestRowIsMissed(f: Unlocked, post: Post, rowId: Uuid, now: int, id: nat, user: Uuid, list: seq<Entry>)
    requires CanMove(f, Write(Create(post, rowId, now), id))
    requires forall r | r in f.rows :: r.updated < now
    requires post.author in Follows(f.friends, user)
    requires list == [] || list[0].row != rowId
    ensures !Right(Moved(f, Write(Create(post, rowId, now), id)), list, user)
  {
    var z := Moved(f, Write(Create(post, rowId, now), id));
    NewestRowComesFirst(RowOf(post, rowId, now), f.rows, Follows(f.friends, user));
    DedupKeepsFirst(Selected(z.rows, Follows(f.friends, user)));
    assert Entries(Fresh(true, Base(z), user))[0].row == rowId;
  }

  ghost predicate NothingAwaited(f: Unlocked, user: Uuid) {
    forall id :: !Awaited(f, id, user)
  }

  /** Moves that leave the tables and the messages alone can neither repair a list nor excuse it. */
  lemma CoveredIffRight(f: Unlocked, z: Unlocked, user: Uuid)
    requires NothingAwaited(f, user) && z.rows == f.rows && z.friends == f.friends
    requires forall id | id in z.messages :: id in f.messages && z.messages[id] == f.messages[id]
    ensures Covered(z, user) <==> (user in z.cache ==> Right(f, z.cache[user], user))
    ensures NothingAwaited(z, user)
  {
    forall id ensures !WillDrop(z, id, user) && !Awaited(z, id, user) {
      assert !Awaited(f, id, user);
    }
  }

  /** A handler that stops between the write and the publication leaves every present list of
      the author's readers wrong, with nothing to repair it. */
  lemma LostPublicationGoesStale(f: Unlocked, post: Post, rowId: Uuid, now: int, id: nat, user: Uuid)
    requires CanMove(f, Write(Create(post, rowId, now), id)) && CacheSound(true, Base(f)) && f.messages == map[]
    requires forall r | r in f.rows :: r.updated < now
    requires user in f.cache && post.author in Follows(f.friends, user)
    ensures var f1 := Moved(f, Write(Create(post, rowId, now), id));
            && CanMove(f1, Forget(id)) && !Undisturbed(f1, Forget(id))
            && !Covered(Moved(f1, Forget(id)), user)
  {
    assert f.cache[user][0] in f.cache[user];
    NewestRowIsMissed(f, post, rowId, now, id, user, f.cache[user]);
  }

  /** A message taken up and done with between a reader's query and its fill: the reader appends
      what was queried before the write, and nothing is left to repair it. */
  lemma LateFillGoesStale(f: Unlocked, post: Post, rowId: Uuid, now: int, id: nat, user: Uuid, k: nat, j: nat)
    requires CanMove(f, Write(Create(post, rowId, now), id)) && RowsIssued(Base(f)) && Counted(f) && f.messages == map[]
    requires forall r | r in f.rows :: r.updated < now
    requires post.author in Follows(f.friends, user) && Fresh(true, Base(f), user) != []
    requires user !in f.cache && k !in f.fills && j !in f.jobs
    ensures var f3 := QueriedWrittenPublished(f, Create(post, rowId, now), id, user, k);
            && CanMove(f3, Begin(j, id)) && !Undisturbed(f3, Begin(j, id))
            && CanRun(f3, ConsumeMoves(f3, j, id))
            && var f4 := AfterMoves(f3, ConsumeMoves(f3, j, id));
               && k in f4.fills && f4.fills[k].done == 0 && CanRun(f4, Appends(f4, k))
               && !Covered(AfterMoves(f4, Appends(f4, k)), user)
  {
    var t := Create(post, rowId, now);
    var feed := Entries(Fresh(true, Base(f), user));
    var f3 := QueriedWrittenPublished(f, t, id, user, k);
    QueryWaits(f, t, id, user, k);
    FeedLacksNewRow(f, rowId, user);
    NewestRowIsMissed(f, post, rowId, now, id, user, feed);
    assert !Right(f3, feed, user);
    JobThenFill(f3, j, id, k, user, feed);
  }

  /** The only message is handled while a fill waits with a feed that is no longer right. */
  lemma JobThenFill(f: Unlocked, j: nat, id: nat, k: nat, user: Uuid, feed: seq<Entry>)
    requires Counted(f) && CanMove(f, Begin(j, id)) && f.messages.Keys == {id}
    requires f.messages[id].post.author in Follows(f.friends, user)
    requires Open(f, k, user) && f.fills[k] == Fill(user, feed, 0) && !Right(f, feed, user)
    ensures !Undisturbed(f, Begin(j, id)) && CanRun(f, ConsumeMoves(f, j, id))
    ensures var f4 := AfterMoves(f, ConsumeMoves(f, j, id));
            && k in f4.fills && f4.fills[k].done == 0 && CanRun(f4, Appends(f4, k))
            && (user !in f.cache ==> !Covered(AfterMoves(f4, Appends(f4, k)), user))
  {
    UndisturbedJobIsDelivery(f, j, id);
    var f4 := AfterMoves(f, ConsumeMoves(f, j, id));
    AppendsFill(f4, k);
    FillOnto(f4, k, user, feed);
    assert [] + feed == feed;
    CoveredIffRight(f4, Filled(f4, k), user);
  }

  /** The fill waits with the old feed while the message of the write is ready. */
  lemma QueryWaits(f: Unlocked, t: Step, id: nat, user: Uuid, k: nat)
    requires CanMove(f, Write(t, id)) && k !in f.fills && Counted(f) && f.messages == map[]
    requires t.post.author in Follows(f.friends, user) && Fresh(true, Base(f), user) != []
    ensures var f3, next := QueriedWrittenPublished(f, t, id, user, k), Moved(f, Write(t, id));
            && f3.rows == next.rows && f3.friends == f.friends && f3.cache == f.cache && f3.jobs == f.jobs
            && f3.messages.Keys == {id} && id !in f3.unpublished && f3.messages[id].post.author == t.post.author
            && k in f3.fills && f3.fills[k] == Fill(user, Entries(Fresh(true, Base(f), user)), 0) && Counted(f3)
  {
    WriteAddsMessage(f, t, id);
    WriteAddsMessage(Moved(f, Query(k, user)), t, id);
  }

  lemma WriteAddsMessage(f: Unlocked, t: Step, id: nat)
    requires CanMove(f, Write(t, id))
    ensures var next, z := Next(true, Base(f), t), Moved(f, Write(t, id));
            && z.messages.Keys == f.messages.Keys + {id} && z.messages[id].post.author == t.post.author
            && z == f.(rows := next.rows, issued := next.issued, messages := z.messages,
                       unpublished := f.unpublished + {id})
  {
  }

  lemma FillOnto(f: Unlocked, k: nat, user: Uuid, feed: seq<Entry>)
    requires Counted(f) && k in f.fills && f.fills[k] == Fill(user, feed, 0) && feed != []
    ensures var z := Filled(f, k);
            && user in z.cache && z.cache[user] == At(f.cache, user) + feed
            && z == f.(cache := z.cache, fills := z.fills)
  {
    assert feed[0..] == feed;
  }

  lemma FeedLacksNewRow(f: Unlocked, rowId: Uuid, user: Uuid)
    requires RowsIssued(Base(f)) && rowId !in f.issued && Fresh(true, Base(f), user) != []
    ensures Entries(Fresh(true, Base(f), user))[0].row != rowId
  {
    FreshIsFollowed(true, Base(f), user);
    assert Fresh(true, Base(f), user)[0] in f.rows;
  }

  ghost function QueriedWrittenPublished(f: Unlocked, t: Step, id: nat, user: Uuid, k: nat): Unlocked
    requires CanMove(f, Write(t, id)) && k !in f.fills
  {
    Moved(Moved(Moved(f, Query(k, user)), Write(t, id)), Publish(id))
  }

  /** A fill that appends to a list that is there already makes it wrong for good. */
  lemma SecondFillIsWrong(f: Unlocked, l: nat, user: Uuid)
    requires Counted(f) && Open(f, l, user) && f.fills[l].done == 0
    requires NothingAwaited(f, user) && user in f.cache && Right(f, f.cache[user], user)
    ensures !Undisturbed(f, AppendNext(l)) && !Covered(Filled(f, l), user)
  {
    FillOnto(f, l, user, f.fills[l].feed);
    CoveredIffRight(f, Filled(f, l), user);
    assert |Filled(f, l).cache[user]| > |f.cache[user]|;
  }

  function TwoFills(k: nat, l: nat, user: Uuid, n: nat): seq<Move> {
    [Query(k, user)] + ([Query(l, user)] + (Repeated(AppendNext(k), n) + Repeated(AppendNext(l), n)))
  }

  /** Two readers of one user's feed miss at once: both query, and both append. The list is then
      the feed twice over. It is wrong for good, and the run is disturbed, exactly when the feed
      is not empty. */
  lemma FilledTwiceIsWrongIff(f: Unlocked, k: nat, l: nat, user: Uuid)
    requires Counted(f) && k !in f.fills && l !in f.fills && k != l
    requires user !in f.cache && NothingAwaited(f, user)
    ensures var feed := Entries(Fresh(true, Base(f), user));
            var ms := TwoFills(k, l, user, |feed|);
            && CanRun(f, ms)
            && At(AfterMoves(f, ms).cache, user) == feed + feed
            && (Covered(AfterMoves(f, ms), user) <==> feed == [])
            && (UndisturbedRun(f, ms) <==> feed == [])
  {
    var feed := Entries(Fresh(true, Base(f), user));
    var f1 := Moved(f, Query(k, user));
    var f2 := Moved(f1, Query(l, user));
    var f3, z := Filled(f2, k), Filled(Filled(f2, k), l);
    TwoFillsRun(f, f1, f2, k, l, user, |feed|);
    FilledTwice(f2, k, l, user, feed);
    CoveredIffRight(f, z, user);
    assert |feed + feed| > |feed| || feed == [];
  }

  lemma TwoFillsRun(f: Unlocked, f1: Unlocked, f2: Unlocked, k: nat, l: nat, user: Uuid, n: nat)
    requires k !in f.fills && k != l && l !in f.fills && Counted(f)
    requires f1 == Moved(f, Query(k, user)) && f2 == Moved(f1, Query(l, user))
    requires Counted(f2) && n == |f2.fills[k].feed| == |f2.fills[l].feed|
    ensures CanRun(f, TwoFills(k, l, user, n))
    ensures AfterMoves(f, TwoFills(k, l, user, n)) == Filled(Filled(f2, k), l)
    ensures UndisturbedRun(f, TwoFills(k, l, user, n)) <==> StartsAlone(f2, k) && StartsAlone(Filled(f2, k), l)
  {
    var a, b := Appends(f2, k), Appends(Filled(f2, k), l);
    AppendsFill(f2, k);
    AppendsFill(Filled(f2, k), l);
    MovesCompose(f2, a, b);
    UndisturbedCompose(f2, a, b);
    MoveThenRun(f1, Query(l, user), a + b);
    MoveThenRun(f, Query(k, user), [Query(l, user)] + (a + b));
  }

  lemma FilledTwice(f: Unlocked, k: nat, l: nat, user: Uuid, feed: seq<Entry>)
    requires Counted(f) && k in f.fills && l in f.fills && k != l && user !in f.cache
    requires f.fills[k] == f.fills[l] == Fill(user, feed, 0)
    ensures var z := Filled(Filled(f, k), l);
            && At(z.cache, user) == feed + feed && (feed == [] ==> z.cache == f.cache)
            && z == f.(cache := z.cache, fills := z.fills)
    ensures StartsAlone(f, k) && StartsAlone(Filled(f, k), l) <==> feed == []
  {
    assert feed[0..] == feed && [] + feed == feed && feed + [] == feed;
  }

  /** A list that is dropped while it is being filled loses its first elements for good; a fill
      that stops half-way leaves a list without its last ones. */
  lemma TornFillIsWrong(f: Unlocked, k: nat, user: Uuid)
    requires Counted(f) && Partial(f, k, user) && PartialSound(f)
    requires NothingAwaited(f, user) && Right(f, f.fills[k].feed, user)
    ensures !Undisturbed(f, Del(user)) && !Undisturbed(f, EndFill(k))
    ensures !Covered(Filled(Moved(f, Del(user)), k), user)
    ensures !Covered(Moved(f, EndFill(k)), user)
  {
    var dropped, ended := Moved(f, Del(user)), Moved(f, EndFill(k));
    CoveredIffRight(f, Filled(dropped, k), user);
    CoveredIffRight(f, ended, user);
    assert |Filled(dropped, k).cache[user]| < |f.fills[k].feed|;
    assert |ended.cache[user]| < |f.fills[k].feed|;
  }

  // ---- friends that change under a list -------------------------------------------------------

  lemma SameFeedIff(f: Unlocked, z: Unlocked, user: Uuid, author: Uuid)
    requires UniqueIds(f.rows) && z.rows == f.rows
    requires author !in Follows(f.friends, user) && Follows(z.friends, user) == Follows(f.friends, user) + {author}
    ensures Entries(Fresh(true, Base(z), user)) == Entries(Fresh(true, Base(f), user))
       <==> forall p | p in Selected(z.rows, Follows(z.friends, user)) :: p.author != author
    ensures (forall p | p in Selected(z.rows, Follows(z.friends, user)) :: p.author != author)
       <==> forall x | x in Entries(Fresh(true, Base(z), user)) :: x.post.author != author
  {
    var authors := Follows(f.friends, user);
    var before, after := Selected(f.rows, authors), Selected(z.rows, authors + {author});
    FeedRaces.NewAuthorShowsIff(f.rows, authors, author);
    EntriesRoundTrip(Fresh(true, Base(f), user));
    EntriesRoundTrip(Fresh(true, Base(z), user));
    SelectedIsNewestByAuthors(f.rows, authors);
    if p :| p in after && p.author == author {
      FeedRaces.DedupTellsNewAuthor(before, after, p);
    }
    AuthorsOfFeed(z, user, author);
  }

  lemma AuthorsOfFeed(f: Unlocked, user: Uuid, author: Uuid)
    ensures (exists p :: p in Selected(f.rows, Follows(f.friends, user)) && p.author == author)
       <==> exists x :: x in Entries(Fresh(true, Base(f), user)) && x.post.author == author
  {
    var posts := Selected(f.rows, Follows(f.friends, user));
    var feed := Dedup.Deduped(posts);
    Dedup.DedupKeepsEveryAuthor(posts);
    assert author in Dedup.Authors(feed) <==> author in Dedup.Authors(posts);
    if p :| p in feed && p.author == author {
      var i :| 0 <= i < |feed| && feed[i] == p;
      assert Entries(feed)[i].post == p;
    }
    if x :| x in Entries(feed) && x.post.author == author {
      var i :| 0 <= i < |feed| && Entries(feed)[i] == x;
      assert feed[i] in feed;
    }
  }

  /** Following an author under a list: the list is wrong for good exactly when a post by the
      author is in the new result. */
  lemma LateFriendGoesStaleIff(f: Unlocked, row: Friend)
    requires UniqueIds(f.rows) && row.friend !in Follows(f.friends, row.user)
    requires row.user in f.cache && Right(f, f.cache[row.user], row.user)
    requires NothingAwaited(Moved(f, InsertFriend(row)), row.user)
    ensures var z := Moved(f, InsertFriend(row));
            && !Undisturbed(f, InsertFriend(row))
            && (Covered(z, row.user)
                <==> forall p | p in Selected(z.rows, Follows(z.friends, row.user)) :: p.author != row.friend)
  {
    var z := Moved(f, InsertFriend(row));
    assert Follows(z.friends, row.user) == Follows(f.friends, row.user) + {row.friend};
    SameFeedIff(f, z, row.user, row.friend);
    CoveredIffRight(z, z, row.user);
  }

  /** Leaving an author under a list: the list is wrong for good exactly when it shows the
      author. */
  lemma LateRemovalGoesStaleIff(f: Unlocked, user: Uuid, friend: Uuid)
    requires UniqueIds(f.rows) && friend in Follows(f.friends, user)
    requires user in f.cache && Right(f, f.cache[user], user) && NothingAwaited(f, user)
    ensures var z := Moved(f, RemoveFriend(user, friend));
            && !Undisturbed(f, RemoveFriend(user, friend))
            && (Covered(z, user) <==> forall x | x in f.cache[user] :: x.post.author != friend)
  {
    var z := Moved(f, RemoveFriend(user, friend));
    assert Follows(f.friends, user) == Follows(z.friends, user) + {friend};
    SameFeedIff(z, f, user, friend);
    forall id ensures !Awaited(z, id, user) {
      assert !Awaited(f, id, user);
    }
    CoveredIffRight(z, z, user);
  }
}
