/** The one-post-per-user mode: every event drops the lists of the author's readers. The cache
    is coherent up to pending events, in whatever order and however often they are delivered. */
module FeedOnePost {
  import opened Posts
  import opened Friends
  import opened RedisLists
  import opened FeedModel
  import opened FeedSafety

  ghost predicate Pending(s: State, user: Uuid) {
    exists e :: e in s.queue && e.post.author in Follows(s.friends, user)
  }

  /** The list is absent, or is what the query returns now, or an event is on its way that
      will drop it. */
  ghost predicate Covered(s: State, user: Uuid) {
    user in s.cache ==> s.cache[user] == Entries(Fresh(true, s, user)) || Pending(s, user)
  }

  ghost predicate Coherent(s: State) {
    forall u :: Covered(s, u)
  }

  // ---- a write by an author the reader does not follow --------------------------------------

  lemma {:induction false} UpdateOfOthers(rows: seq<Post>, post: Post, now: int, authors: set<Uuid>)
    requires post.author !in authors
    requires forall r | r in rows && r.id == post.id :: r.author == post.author
    ensures ByAuthors(UpdatedRows(rows, post, now), authors) == ByAuthors(rows, authors)
  {
    if rows == [] {
    } else {
      assert rows[0] in rows;
      UpdateOfOthers(rows[1..], post, now, authors);
      var after := UpdatedRows(rows, post, now);
      assert after[1..] == UpdatedRows(rows[1..], post, now);
    }
  }

  lemma {:induction false} DeleteOfOthers(rows: seq<Post>, post: Post, authors: set<Uuid>)
    requires post.author !in authors
    requires forall r | r in rows && r.id == post.id :: r.author == post.author
    ensures ByAuthors(RemainingRows(rows, post.id), authors) == ByAuthors(rows, authors)
  {
    if rows == [] {
    } else {
      assert rows[0] in rows;
      DeleteOfOthers(rows[1..], post, authors);
      var rest := RemainingRows(rows[1..], post.id);
      if rows[0].id == post.id {
        assert RemainingRows(rows, post.id) == rest;
        assert ByAuthors(rows, authors) == ByAuthors(rows[1..], authors);
      } else {
        assert RemainingRows(rows, post.id)[1..] == rest;
      }
    }
  }

  /** The feed of a reader does not change with a write by an author outside it. */
  lemma WriteOfOthers(onePost: bool, s: State, t: Step, user: Uuid)
    requires t.Create? || t.Update? || t.Delete?
    requires Enabled(s, t) && RowsIssued(s)
    requires t.post.author !in Follows(s.friends, user)
    ensures Fresh(onePost, Next(onePost, s, t), user) == Fresh(onePost, s, user)
  {
    var authors := Follows(s.friends, user);
    match t
    case Create(post, rowId, now) =>
      var rows := [RowOf(post, rowId, now)] + s.rows;
      assert rows[1..] == s.rows;
      assert ByAuthors(rows, authors) == ByAuthors(s.rows, authors);
    case Update(post, now) => UpdateOfOthers(s.rows, post, now, authors);
    case Delete(post) => DeleteOfOthers(s.rows, post, authors);
  }

  // ---- each kind of step --------------------------------------------------------------------

  lemma WriteKeepsCoherent(s: State, t: Step)
    requires t.Create? || t.Update? || t.Delete?
    requires Enabled(s, t) && RowsIssued(s) && Coherent(s)
    ensures Coherent(Next(true, s, t))
  {
    var s' := Next(true, s, t);
    assert s'.queue == s.queue + [s'.queue[|s.queue|]];
    var e := s'.queue[|s.queue|];
    forall u ensures Covered(s', u) {
      assert Covered(s, u);
      if t.post.author in Follows(s.friends, u) {
        assert e in s'.queue && e.post.author in Follows(s'.friends, u);
      } else {
        WriteOfOthers(true, s, t, u);
        if Pending(s, u) {
          var p :| p in s.queue && p.post.author in Follows(s.friends, u);
          assert p in s'.queue;
        }
      }
    }
  }

  lemma DeliveryKeepsCoherent(s: State, t: Step)
    requires t.Deliver? || t.DeliverPart?
    requires Enabled(s, t) && Coherent(s)
    ensures Coherent(Next(true, s, t))
  {
    var s' := Next(true, s, t);
    var e := s.queue[t.index];
    forall u ensures Covered(s', u) {
      assert Covered(s, u);
      FollowersAreReaders(s.friends, u, e.post.author);
      if u in s'.cache && Pending(s, u) {
        var p :| p in s.queue && p.post.author in Follows(s.friends, u);
        var i :| 0 <= i < |s.queue| && s.queue[i] == p;
        assert t.Deliver? ==> i != t.index;
        assert t.Deliver? && t.acked ==> s'.queue == s.queue[..t.index] + s.queue[t.index + 1..];
        assert p in s'.queue;
      }
    }
  }

  lemma FriendsKeepCoherent(s: State, t: Step)
    requires t.FriendSet? || t.FriendDelete?
    requires Coherent(s)
    ensures Coherent(Next(true, s, t))
  {
    var s' := Next(true, s, t);
    forall u ensures Covered(s', u) {
      assert Covered(s, u);
      if u in s'.cache {
        assert Follows(s'.friends, u) == Follows(s.friends, u);
        if Pending(s, u) {
          var p :| p in s.queue && p.post.author in Follows(s.friends, u);
          assert p in s'.queue;
        }
      }
    }
  }

  lemma ReadKeepsCoherent(s: State, user: Uuid)
    requires Coherent(s)
    ensures Coherent(Next(true, s, Read(user)))
  {
    var s' := Next(true, s, Read(user));
    forall u ensures Covered(s', u) {
      assert Covered(s, u);
      if Pending(s, u) {
        var p :| p in s.queue && p.post.author in Follows(s.friends, u);
        assert p in s'.queue;
      }
    }
  }

  lemma StepKeepsCoherent(s: State, t: Step)
    requires Enabled(s, t) && RowsIssued(s) && Coherent(s)
    ensures Coherent(Next(true, s, t))
  {
    match t
    case Read(user) => ReadKeepsCoherent(s, user);
    case Deliver(_, _) => DeliveryKeepsCoherent(s, t);
    case DeliverPart(_, _) => DeliveryKeepsCoherent(s, t);
    case FriendSet(_) => FriendsKeepCoherent(s, t);
    case FriendDelete(_, _) => FriendsKeepCoherent(s, t);
    case _ => WriteKeepsCoherent(s, t);
  }

  // ---- runs -------------------------------------------------------------------------------

  lemma {:induction false} CoherentAfterEveryRun(s: State, ts: seq<Step>)
    requires IsRun(true, s, ts) && TablesSound(s) && Coherent(s)
    ensures Coherent(After(true, s, ts))
    decreases |ts|
  {
    if ts == [] {
    } else {
      TablesStaySound(true, s, ts[0]);
      StepKeepsCoherent(s, ts[0]);
      CoherentAfterEveryRun(Next(true, s, ts[0]), ts[1..]);
    }
  }

  /** From an initial state, after any run, a reader none of whose authors has an event
      pending has no list, or exactly the list the query would build now. */
  lemma DrainedListIsFresh(s: State, ts: seq<Step>, user: Uuid)
    requires Initial(s) && IsRun(true, s, ts)
    requires !Pending(After(true, s, ts), user)
    ensures var z := After(true, s, ts);
            user in z.cache ==> PostsOf(z.cache[user]) == Fresh(true, z, user)
  {
    InitiallySound(true, s);
    CoherentAfterEveryRun(s, ts);
    var z := After(true, s, ts);
    assert Covered(z, user);
    EntriesRoundTrip(Fresh(true, z, user));
  }

  // ---- order and repetition do not matter ---------------------------------------------------

  function ConsumedAll(cache: Lists, events: seq<Event>, friends: seq<Friend>): Lists {
    if events == [] then cache
    else
      var last := events[|events| - 1];
      Consumed(true, ConsumedAll(cache, events[..|events| - 1], friends), last,
               Followers(friends, last.post.author))
  }

  /** Consuming a sequence of events removes exactly the lists of their authors' readers. */
  lemma {:induction false} ConsumedAllDropsReaders(cache: Lists, events: seq<Event>, friends: seq<Friend>, u: Uuid)
    ensures u in ConsumedAll(cache, events, friends)
       <==> u in cache && forall e | e in events :: e.post.author !in Follows(friends, u)
    ensures u in ConsumedAll(cache, events, friends) ==> ConsumedAll(cache, events, friends)[u] == cache[u]
  {
    if events == [] {
    } else {
      var last, front := events[|events| - 1], events[..|events| - 1];
      assert events == front + [last];
      ConsumedAllDropsReaders(cache, front, friends, u);
      FollowersAreReaders(friends, u, last.post.author);
    }
  }

  /** Any two deliveries of the same events, reordered and repeated as they may be, leave the
      same cache. */
  lemma DeliveryOrderIsIrrelevant(cache: Lists, one: seq<Event>, other: seq<Event>, friends: seq<Friend>)
    requires forall e :: e in one <==> e in other
    ensures ConsumedAll(cache, one, friends) == ConsumedAll(cache, other, friends)
  {
    var a, b := ConsumedAll(cache, one, friends), ConsumedAll(cache, other, friends);
    forall u ensures u in a <==> u in b
             ensures u in a ==> a[u] == b[u]
    {
      ConsumedAllDropsReaders(cache, one, friends, u);
      ConsumedAllDropsReaders(cache, other, friends, u);
    }
  }
}
