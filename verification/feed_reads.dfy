/** Reading a page of a feed, from the query's result or from the cached list. */
module FeedReads {
  import opened Posts
  import opened RedisLists
  import opened Options
  import opened Friends
  import opened FeedModel
  import FeedSafety
  import FeedEffects
  import FeedOnePost
  import FeedDefault

  /** A request is answered with a page, or its task panics. */
  datatype Reply = Page(posts: seq<Post>) | Panicked

  /** Offsets and limits are converted to `i64` first, which fails from here on. */
  const TOO_LARGE: nat := 0x8000_0000_0000_0000

  function Clamped(n: nat): nat {
    if FEED_LENGTH < n then FEED_LENGTH else n
  }

  function MissPage(posts: seq<Post>, offset: nat, limit: nat): seq<Post> {
    if |posts| < offset then [] else posts[offset..Min(offset + limit, |posts|)]
  }

  /** The page cut from the query's result. */
  function ReadMiss(posts: seq<Post>, offset: nat, limit: nat): Reply {
    if offset >= TOO_LARGE || limit >= TOO_LARGE then Panicked
    else Page(MissPage(posts, Clamped(offset), Clamped(limit)))
  }

  /** The page ranged from the cached list. The last index is computed in `usize`: with offset
      and limit zero the subtraction underflows. */
  function ReadHit(list: seq<Post>, offset: nat, limit: nat): Reply {
    if offset >= TOO_LARGE || limit >= TOO_LARGE then Panicked
    else if Clamped(offset) + Clamped(limit) == 0 then Panicked
    else Page(Range(list, Clamped(offset), Clamped(offset) + Clamped(limit) - 1))
  }

  /** A hit and a miss agree on every request but the one for nothing at all. */
  lemma HitIsMissIff(posts: seq<Post>, offset: nat, limit: nat)
    requires |posts| <= FEED_LENGTH
    ensures ReadHit(posts, offset, limit) == ReadMiss(posts, offset, limit)
       <==> !(offset == 0 && limit == 0)
  {
    var o, l := Clamped(offset), Clamped(limit);
    if offset < TOO_LARGE && limit < TOO_LARGE && o + l > 0 {
      if o < |posts| && l > 0 {
        assert Range(posts, o, o + l - 1) == posts[o..Min(o + l, |posts|)];
      } else {
        assert MissPage(posts, o, l) == [];
      }
    }
  }

  /** LTRIM 0 FEED_LENGTH leaves one element more than the query returns. On such a list a hit
      is the page of the first FEED_LENGTH elements exactly when the request stops there. */
  lemma OverfullHitIff(list: seq<Post>, offset: nat, limit: nat)
    requires |list| == FEED_LENGTH + 1
    requires offset < TOO_LARGE && limit < TOO_LARGE && offset + limit > 0
    ensures ReadHit(list, offset, limit) == ReadMiss(list[..FEED_LENGTH], offset, limit)
       <==> Clamped(offset) + Clamped(limit) <= FEED_LENGTH
  {
    var o, l := Clamped(offset), Clamped(limit);
    var first := list[..FEED_LENGTH];
    if o + l <= FEED_LENGTH {
      if l > 0 {
        assert Range(list, o, o + l - 1) == list[o..o + l];
        assert first[o..o + l] == list[o..o + l];
      } else {
        assert MissPage(first, o, l) == [];
      }
    } else {
      assert |MissPage(first, o, l)| == FEED_LENGTH - o;
      assert |Range(list, o, o + l - 1)| == FEED_LENGTH + 1 - o;
    }
  }

  /** Such lists do arise: a full list that receives a creation holds one element too many. */
  lemma FullListBecomesOverfull(s: State, user: Uuid, e: Event)
    requires UniquePairs(s.friends) && e.kind.CREATED? && e.post.author in Follows(s.friends, user)
    requires user in s.cache && |s.cache[user]| == FEED_LENGTH
    ensures var c := Consumed(false, s.cache, e, Followers(s.friends, e.post.author));
            user in c && |c[user]| == FEED_LENGTH + 1
  {
    FeedDefault.ConsumerAbsorbs(s, e, user);
  }

  // ---- paging through -----------------------------------------------------------------------

  /** Asks for page after page of one size until a page is empty. */
  ghost function Scrolled(posts: seq<Post>, size: nat, offset: nat): seq<Post>
    decreases if offset < |posts| then |posts| - offset else 0
  {
    match ReadMiss(posts, offset, size)
    case Panicked => []
    case Page(page) =>
      if page == [] || size == 0 || offset >= |posts| then page
      else page + Scrolled(posts, size, offset + size)
  }

  lemma {:induction false} ScrolledFrom(posts: seq<Post>, size: nat, offset: nat)
    requires |posts| <= FEED_LENGTH && 1 <= size < TOO_LARGE
    requires offset < TOO_LARGE && (offset == 0 || offset >= |posts| || size < FEED_LENGTH)
    ensures Scrolled(posts, size, offset) == posts[Min(offset, |posts|)..]
    decreases if offset < |posts| then |posts| - offset else 0
  {
    if offset < |posts| {
      var next := Min(offset + size, |posts|);
      ScrollPage(posts, size, offset);
      assert Scrolled(posts, size, offset) == posts[offset..next] + Scrolled(posts, size, offset + size);
      ScrolledFrom(posts, size, offset + size);
      RestAfterPage(posts, offset, next);
    } else {
      EmptyPageAtEnd(posts, size, offset);
    }
  }

  /** A page inside the feed, and where the next one starts. */
  lemma ScrollPage(posts: seq<Post>, size: nat, offset: nat)
    requires |posts| <= FEED_LENGTH && 1 <= size < TOO_LARGE && offset < |posts|
    requires offset == 0 || size < FEED_LENGTH
    ensures ReadMiss(posts, offset, size) == Page(posts[offset..Min(offset + size, |posts|)])
    ensures offset + size < TOO_LARGE || offset == 0
  {
  }

  lemma RestAfterPage(posts: seq<Post>, offset: nat, next: nat)
    requires offset <= next <= |posts|
    ensures posts[offset..] == posts[offset..next] + posts[next..]
  {
  }

  lemma EmptyPageAtEnd(posts: seq<Post>, size: nat, offset: nat)
    requires |posts| <= FEED_LENGTH && 1 <= size < TOO_LARGE && |posts| <= offset < TOO_LARGE
    ensures ReadMiss(posts, offset, size) == Page([]) && posts[|posts|..] == []
  {
    assert |posts| <= Clamped(offset);
  }

  /** Paging through a feed with any page size yields the feed, without a gap or a repetition,
      in spite of the clamped offsets and limits; and it comes to an end. */
  lemma ScrollingTilesTheFeed(posts: seq<Post>, size: nat)
    requires |posts| <= FEED_LENGTH && 1 <= size < TOO_LARGE
    ensures Scrolled(posts, size, 0) == posts
  {
    ScrolledFrom(posts, size, 0);
  }

  /** On an overfull list it does not: from offset FEED_LENGTH on every page repeats the last
      element, so no page is ever empty. */
  lemma OverfullListNeverEnds(list: seq<Post>, offset: nat, size: nat)
    requires |list| == FEED_LENGTH + 1 && 1 <= size < TOO_LARGE && offset < TOO_LARGE
    requires offset >= FEED_LENGTH
    ensures ReadHit(list, offset, size) == Page([list[FEED_LENGTH]])
  {
    assert Clamped(offset) == FEED_LENGTH;
  }

  // ---- reads of reachable states --------------------------------------------------------------

  /** The answer of `get_feed`. */
  function Answer(onePost: bool, s: State, user: Uuid, offset: nat, limit: nat): Reply {
    if user in s.cache then ReadHit(PostsOf(s.cache[user]), offset, limit)
    else ReadMiss(Fresh(onePost, s, user), offset, limit)
  }

  /** The elements of a list from o on, l of them or as many as there are. */
  ghost predicate Cut(page: seq<Post>, list: seq<Post>, o: nat, l: nat) {
    && |page| == (if o >= |list| then 0 else if l <= |list| - o then l else |list| - o)
    && forall i | 0 <= i < |page| :: page[i] == list[o + i]
  }

  lemma MissIsCut(posts: seq<Post>, o: nat, l: nat)
    ensures Cut(MissPage(posts, o, l), posts, o, l)
  {
  }

  lemma HitIsCut(list: seq<Post>, o: nat, l: nat)
    requires o + l > 0
    ensures Cut(Range(list, o, o + l - 1), list, o, l)
  {
  }

  /** Which requests get a page, and what is on it, element by element: of the cached list on a
      hit and of the query's result on a miss, with offset and limit cut at 1000. */
  lemma AnswerIsPage(onePost: bool, s: State, user: Uuid, offset: nat, limit: nat)
    ensures var reply := Answer(onePost, s, user, offset, limit);
            && (reply.Page? <==>
                  && offset < 0x8000_0000_0000_0000 && limit < 0x8000_0000_0000_0000
                  && (user !in s.cache || offset + limit > 0))
            && (reply.Page? ==>
                  var n := if user in s.cache then |s.cache[user]| else |Fresh(onePost, s, user)|;
                  var o, l := if offset > 1000 then 1000 else offset, if limit > 1000 then 1000 else limit;
                  && |reply.posts| == (if o >= n then 0 else if l <= n - o then l else n - o)
                  && forall i | 0 <= i < |reply.posts| ::
                       reply.posts[i] == if user in s.cache then s.cache[user][o + i].post
                                         else Fresh(onePost, s, user)[o + i])
  {
    if Answer(onePost, s, user, offset, limit).Page? {
      var o, l := Clamped(offset), Clamped(limit);
      if user in s.cache {
        HitIsCut(PostsOf(s.cache[user]), o, l);
      } else {
        MissIsCut(Fresh(onePost, s, user), o, l);
      }
    }
  }

  /** Default mode: after a deletion, whatever else happens, once the messages have been handled in
      order no page shows the deleted row: a cached post comes from another row that is there, and
      a queried one is another row. */
  lemma DeletedIsOnNoPage(s: State, before: seq<Step>, post: Post, after: seq<Step>, user: Uuid,
                          offset: nat, limit: nat, i: nat)
    requires Initial(s) && IsRun(false, s, before + [Delete(post)] + after)
    requires forall t | t in before + [Delete(post)] + after :: FeedDefault.InOrder(t)
    requires After(false, s, before + [Delete(post)] + after).queue == []
    requires var reply := Answer(false, After(false, s, before + [Delete(post)] + after), user, offset, limit);
             reply.Page? && i < |reply.posts|
    ensures var z := After(false, s, before + [Delete(post)] + after);
            var p := Answer(false, z, user, offset, limit).posts[i];
            if user in z.cache
            then exists x :: x in z.cache[user] && x.post == p && FeedEffects.ShowsAnotherRow(z, x, post.id)
            else p in z.rows && p.id != post.id
  {
    var z := After(false, s, before + [Delete(post)] + after);
    AnswerIsPage(false, z, user, offset, limit);
    var o := if offset > 1000 then 1000 else offset;
    if user in z.cache {
      var x := z.cache[user][o + i];
      FeedEffects.DeletedIsNotCached(s, before, post, after, user, x);
      assert x in z.cache[user] && x.post == Answer(false, z, user, offset, limit).posts[i];
    } else {
      FeedEffects.DeletedAfterRun(false, s, before, post, after);
      FeedSafety.FreshIsFollowed(false, z, user);
      assert Fresh(false, z, user)[o + i] in Fresh(false, z, user);
    }
  }

  /** One-post mode: the same in any order of delivery, once no event is pending for the user; and
      here a page shows rows, so no post on it has the identifier. */
  lemma DeletedIsOnNoOnePostPage(s: State, before: seq<Step>, post: Post, after: seq<Step>, user: Uuid,
                                 offset: nat, limit: nat)
    requires Initial(s) && IsRun(true, s, before + [Delete(post)] + after)
    requires !FeedOnePost.Pending(After(true, s, before + [Delete(post)] + after), user)
    ensures var reply := Answer(true, After(true, s, before + [Delete(post)] + after), user, offset, limit);
            reply.Page? ==> forall p | p in reply.posts :: p.id != post.id
  {
    var z := After(true, s, before + [Delete(post)] + after);
    var reply := Answer(true, z, user, offset, limit);
    AnswerIsPage(true, z, user, offset, limit);
    FeedOnePost.DrainedListIsFresh(s, before + [Delete(post)] + after, user);
    FeedEffects.DeletedAfterRun(true, s, before, post, after);
    FeedSafety.FreshIsFollowed(true, z, user);
    var feed := Fresh(true, z, user);
    if reply.Page? {
      var o := if offset > 1000 then 1000 else offset;
      forall p | p in reply.posts ensures p.id != post.id {
        var i :| 0 <= i < |reply.posts| && reply.posts[i] == p;
        assert user in z.cache ==> PostsOf(z.cache[user])[o + i] == feed[o + i];
        assert feed[o + i] in feed;
      }
    }
  }

  /** One post per user: once no event of a followed author is pending, every page is the page
      of the query, after any run and any delivery. */
  lemma DrainedOnePostReads(s: State, ts: seq<Step>, user: Uuid, offset: nat, limit: nat)
    requires Initial(s) && IsRun(true, s, ts)
    requires !FeedOnePost.Pending(After(true, s, ts), user)
    requires offset + limit >= 1
    ensures var z := After(true, s, ts);
            Answer(true, z, user, offset, limit) == ReadMiss(Fresh(true, z, user), offset, limit)
  {
    var z := After(true, s, ts);
    FeedOnePost.DrainedListIsFresh(s, ts, user);
    FeedSafety.FreshIsFollowed(true, z, user);
    HitIsMissIff(Fresh(true, z, user), offset, limit);
  }

  ghost predicate SameReply(a: Reply, b: Reply) {
    match (a, b)
    case (Page(p), Page(q)) => Views(p) == Views(q)
    case (Panicked, Panicked) => true
    case _ => false
  }

  /** Equal views of the first FEED_LENGTH elements give equal views of every page in them. */
  lemma SamePrefixSamePage(list: seq<Post>, posts: seq<Post>, offset: nat, limit: nat)
    requires Views(Take(list, FEED_LENGTH)) == Views(posts) && |list| <= FEED_LENGTH + 1
    requires offset + limit >= 1 && (offset + limit <= FEED_LENGTH || |list| <= FEED_LENGTH)
    ensures SameReply(ReadHit(list, offset, limit), ReadMiss(posts, offset, limit))
  {
    var first := Take(list, FEED_LENGTH);
    if |list| <= FEED_LENGTH {
      HitIsMissIff(list, offset, limit);
    } else {
      OverfullHitIff(list, offset, limit);
    }
    assert ReadHit(list, offset, limit) == ReadMiss(first, offset, limit);
    assert |first| == |Views(first)| == |Views(posts)| == |posts|;
    forall i | 0 <= i < |first| ensures ViewOf(first[i]) == ViewOf(posts[i]) {
      assert Views(first)[i] == Views(posts)[i];
    }
  }

  /** The default mode: after a granted run with an empty queue every page within the first
      FEED_LENGTH places shows the contents and authors that the query would. */
  lemma DrainedDefaultReads(s: State, ts: seq<Step>, user: Uuid, offset: nat, limit: nat)
    requires Initial(s) && IsRun(false, s, ts) && FeedDefault.GrantedRun(s, ts, user)
    requires After(false, s, ts).queue == []
    requires 1 <= offset + limit <= FEED_LENGTH
    ensures var z := After(false, s, ts);
            SameReply(Answer(false, z, user, offset, limit), ReadMiss(Fresh(false, z, user), offset, limit))
  {
    var z := After(false, s, ts);
    FeedDefault.DrainedListReadsFresh(s, ts, user);
    FeedSafety.InitiallySound(false, s);
    FeedSafety.SoundAfterEveryRun(false, s, ts);
    if user in z.cache {
      SamePrefixSamePage(PostsOf(z.cache[user]), Fresh(false, z, user), offset, limit);
    }
  }

  /** A list that reads as the top of the posts: within the first FEED_LENGTH places the page of a
      hit is the top of the page of a miss. */
  lemma TopPageOfTop(list: seq<Post>, posts: seq<Post>, offset: nat, limit: nat)
    requires Views(Take(list, FEED_LENGTH)) <= Views(posts) && |list| <= FEED_LENGTH + 1
    requires 1 <= offset + limit <= FEED_LENGTH
    ensures var hit, miss := ReadHit(list, offset, limit), ReadMiss(posts, offset, limit);
            hit.Page? && miss.Page? && Views(hit.posts) <= Views(miss.posts)
  {
    HitIsCut(list, offset, limit);
    MissIsCut(posts, offset, limit);
    TopOfCut(Range(list, offset, offset + limit - 1), MissPage(posts, offset, limit), list, posts, offset, limit);
  }

  lemma TopOfCut(a: seq<Post>, b: seq<Post>, list: seq<Post>, posts: seq<Post>, o: nat, l: nat)
    requires Views(Take(list, FEED_LENGTH)) <= Views(posts) && |list| <= FEED_LENGTH + 1 && o + l <= FEED_LENGTH
    requires Cut(a, list, o, l) && Cut(b, posts, o, l)
    ensures Views(a) <= Views(b)
  {
    var top := Views(Take(list, FEED_LENGTH));
    assert |top| <= |posts|;
    forall i | 0 <= i < |a| ensures i < |b| && Views(a)[i] == Views(b)[i] {
      assert top[o + i] == Views(posts)[o + i];
    }
  }

  /** The default mode without the condition that a creation finds a list: after an orderly run
      with an empty queue a page within the first FEED_LENGTH places shows the top of the page
      that the query would, and nothing else. */
  lemma DrainedOrderlyReads(s: State, ts: seq<Step>, user: Uuid, offset: nat, limit: nat)
    requires Initial(s) && IsRun(false, s, ts) && FeedDefault.OrderlyRun(s, ts, user)
    requires After(false, s, ts).queue == []
    requires 1 <= offset + limit <= FEED_LENGTH
    ensures var z := After(false, s, ts);
            var reply, page := Answer(false, z, user, offset, limit), ReadMiss(Fresh(false, z, user), offset, limit);
            reply.Page? && page.Page? && Views(reply.posts) <= Views(page.posts)
  {
    var z := After(false, s, ts);
    FeedDefault.DrainedListReadsAsTop(s, ts, user);
    FeedSafety.InitiallySound(false, s);
    FeedSafety.SoundAfterEveryRun(false, s, ts);
    if user in z.cache {
      TopPageOfTop(PostsOf(z.cache[user]), Fresh(false, z, user), offset, limit);
    }
  }
}
