/** The one-post mode command by command: a database write and its publication, each DEL of an
    invalidation and the friend change after it, a reader's query and every RPUSH of its fill,
    the consumer's lookup of the readers, every DEL of its loop and its acknowledgement. Any
    number of handlers run at once. What they then ask of each other is stated as `Undisturbed`. */
module FeedUnlocked {
  import opened Posts
  import opened Friends
  import opened RedisLists
  import opened FeedModel
  import opened FeedSafety
  import FeedOnePost

  /** A reader that found no list: what it queried, and how much of it is appended. */
  datatype Fill = Fill(user: Uuid, feed: seq<Entry>, done: nat)

  /** A message being handled: the readers looked up, and how many of their lists are dropped. */
  datatype Job = Job(message: nat, readers: seq<Uuid>, done: nat)

  /** `messages` holds the events that are not done with, by a number of their own;
      `unpublished` those whose handlers have yet to publish them. */
  datatype Unlocked = Unlocked(
    rows: seq<Post>,
    friends: seq<Friend>,
    cache: Lists,
    issued: map<Uuid, Uuid>,
    messages: map<nat, Event>,
    unpublished: set<nat>,
    fills: map<nat, Fill>,
    jobs: map<nat, Job>)

  /** The tables and the cache, as a state of the coarse model. */
  function Base(f: Unlocked): State {
    State(f.rows, f.friends, f.cache, [], f.issued)
  }

  function Started(s: State): Unlocked {
    Unlocked(s.rows, s.friends, s.cache, s.issued, map[], {}, map[], map[])
  }

  datatype Move =
    | Write(t: Step, message: nat)
    | Publish(message: nat)
      // The handler stops without publishing: nobody will ever hear of the write.
    | Forget(message: nat)
      // A reader that missed queries; appends an element; ends, or stops half-way.
    | Query(fill: nat, user: Uuid)
    | AppendNext(fill: nat)
    | EndFill(fill: nat)
      // One command of `cache_invalidate_by_friend_user_id`.
    | Del(user: Uuid)
    | InsertFriend(row: Friend)
    | RemoveFriend(user: Uuid, friend: Uuid)
      // The consumer looks the readers up; drops a list; acknowledges, or stops half-way and
      // leaves the message to be delivered again.
    | Begin(job: nat, message: nat)
    | DropNext(job: nat)
    | Finish(job: nat)
    | Abandon(job: nat)

  ghost predicate CanMove(f: Unlocked, m: Move) {
    match m
    case Write(t, id) =>
      && (t.Create? || t.Update? || t.Delete?) && Enabled(Base(f), t)
      && id !in f.messages && forall j | j in f.jobs :: f.jobs[j].message != id
    case Publish(id) => id in f.unpublished
    case Forget(id) => id in f.messages && id in f.unpublished
    case Query(k, _) => k !in f.fills
    case AppendNext(k) => k in f.fills && f.fills[k].done < |f.fills[k].feed|
    case EndFill(k) => k in f.fills
    case Begin(j, id) => j !in f.jobs && id in f.messages && id !in f.unpublished
    case DropNext(j) => j in f.jobs && f.jobs[j].done < |f.jobs[j].readers|
    case Finish(j) => j in f.jobs && f.jobs[j].done == |f.jobs[j].readers|
    case Abandon(j) => j in f.jobs
    case _ => true
  }

  ghost function Moved(f: Unlocked, m: Move): Unlocked
    requires CanMove(f, m)
  {
    match m
    case Write(t, id) =>
      var next := Next(true, Base(f), t);
      f.(rows := next.rows, issued := next.issued,
         messages := f.messages[id := next.queue[0]], unpublished := f.unpublished + {id})
    case Publish(id) => f.(unpublished := f.unpublished - {id})
    case Forget(id) => f.(messages := f.messages - {id}, unpublished := f.unpublished - {id})
    case Query(k, user) => f.(fills := f.fills[k := Fill(user, Entries(Fresh(true, Base(f), user)), 0)])
    case AppendNext(k) =>
      var fill := f.fills[k];
      f.(cache := RPushed(f.cache, fill.user, fill.feed[fill.done]),
         fills := f.fills[k := fill.(done := fill.done + 1)])
    case EndFill(k) => f.(fills := f.fills - {k})
    case Del(user) => f.(cache := f.cache - {user})
    case InsertFriend(row) => f.(friends := f.friends + [row])
    case RemoveFriend(user, friend) => f.(friends := WithoutPair(f.friends, user, friend))
    case Begin(j, id) => f.(jobs := f.jobs[j := Job(id, Followers(f.friends, f.messages[id].post.author), 0)])
    case DropNext(j) =>
      var job := f.jobs[j];
      f.(cache := f.cache - {job.readers[job.done]}, jobs := f.jobs[j := job.(done := job.done + 1)])
    case Finish(j) => f.(messages := f.messages - {f.jobs[j].message}, jobs := f.jobs - {j})
    case Abandon(j) => f.(jobs := f.jobs - {j})
  }

  // ---- what the handlers ask of each other --------------------------------------------------

  /** The fill has elements to append. */
  ghost predicate Open(f: Unlocked, k: nat, user: Uuid) {
    k in f.fills && f.fills[k].user == user && f.fills[k].done < |f.fills[k].feed|
  }

  /** It has appended some, so that the list is there and incomplete. */
  ghost predicate Partial(f: Unlocked, k: nat, user: Uuid) {
    Open(f, k, user) && 0 < f.fills[k].done
  }

  /** A fill starts to append while the list is absent, and is neither cut off nor robbed of its
      first elements; no message by an author of a reader is taken up while the reader's fill is
      open; a user's friends change while the user has no list and no open fill; an event is
      published, unless no reader of its author has a list or an open fill. */
  ghost predicate Undisturbed(f: Unlocked, m: Move)
    requires CanMove(f, m)
  {
    match m
    case AppendNext(k) => f.fills[k].done == 0 ==> f.fills[k].user !in f.cache
    case EndFill(k) => !Partial(f, k, f.fills[k].user)
    case Del(user) => forall k :: !Partial(f, k, user)
    case DropNext(j) => forall k :: !Partial(f, k, f.jobs[j].readers[f.jobs[j].done])
    case InsertFriend(row) => row.user !in f.cache && forall k :: !Open(f, k, row.user)
    case RemoveFriend(user, _) => user !in f.cache && forall k :: !Open(f, k, user)
    case Forget(id) =>
      forall u | f.messages[id].post.author in Follows(f.friends, u) :: u !in f.cache && forall k :: !Open(f, k, u)
    case Begin(j, id) =>
      forall k, u | Open(f, k, u) :: f.messages[id].post.author !in Follows(f.friends, u)
    case _ => true
  }

  // ---- coherence ------------------------------------------------------------------------------

  function ToDrop(job: Job): seq<Uuid> {
    if job.done <= |job.readers| then job.readers[job.done..] else []
  }

  /** The event is not done with and concerns the user. */
  ghost predicate Awaited(f: Unlocked, id: nat, user: Uuid) {
    id in f.messages && f.messages[id].post.author in Follows(f.friends, user)
  }

  /** Whoever handles the message, now or later, will drop the user's list. */
  ghost predicate WillDrop(f: Unlocked, id: nat, user: Uuid) {
    Awaited(f, id, user) && forall j | j in f.jobs && f.jobs[j].message == id :: user in ToDrop(f.jobs[j])
  }

  ghost predicate Untouched(f: Unlocked, id: nat, user: Uuid) {
    Awaited(f, id, user) && forall j | j in f.jobs :: f.jobs[j].message != id
  }

  ghost predicate Right(f: Unlocked, list: seq<Entry>, user: Uuid) {
    list == Entries(Fresh(true, Base(f), user))
  }

  /** The list is absent, or right, or a message will drop it. */
  ghost predicate Covered(f: Unlocked, user: Uuid) {
    user in f.cache ==> Right(f, f.cache[user], user) || exists id :: WillDrop(f, id, user)
  }

  /** What an open fill is going to append is right, or nobody has taken up a message that will
      drop the list it makes. */
  ghost predicate FillCovered(f: Unlocked, k: nat) {
    k in f.fills && f.fills[k].done < |f.fills[k].feed|
    ==> Right(f, f.fills[k].feed, f.fills[k].user) || exists id :: Untouched(f, id, f.fills[k].user)
  }

  /** A list under construction is what its one open fill has appended so far. */
  ghost predicate PartialSound(f: Unlocked) {
    && (forall k, u | Partial(f, k, u) :: u in f.cache && f.cache[u] == f.fills[k].feed[..f.fills[k].done])
    && (forall k, l, u | Partial(f, k, u) && Partial(f, l, u) :: k == l)
  }

  ghost predicate AllCoherent(f: Unlocked) {
    && PartialSound(f)
    && (forall u :: Covered(f, u) || exists k :: Partial(f, k, u))
    && (forall k :: FillCovered(f, k))
  }

  // ---- each kind of move ----------------------------------------------------------------------

  /** Coherence survives a change that keeps the rows, the messages and the open fills, and that
      keeps for every list left the friends of its user and the messages that will drop it. */
  lemma QuietChangeKeepsCoherent(f: Unlocked, f': Unlocked)
    requires AllCoherent(f) && f'.rows == f.rows && f'.messages == f.messages
    requires forall u | u in f'.cache :: u in f.cache && f'.cache[u] == f.cache[u]
    requires forall u | u in f'.cache || exists k :: Open(f', k, u) :: Follows(f'.friends, u) == Follows(f.friends, u)
    requires forall k, u | Open(f', k, u) :: Open(f, k, u) && f'.fills[k] == f.fills[k]
    requires forall k, u | Partial(f, k, u) :: Partial(f', k, u) && u in f'.cache
    requires forall id, u | u in f'.cache && WillDrop(f, id, u) && Awaited(f', id, u) :: WillDrop(f', id, u)
    requires forall id, k, u | Open(f', k, u) && Untouched(f, id, u) && Awaited(f', id, u) :: Untouched(f', id, u)
    ensures AllCoherent(f')
  {
    assert forall k, u :: Partial(f', k, u) <==> Partial(f, k, u);
    forall u ensures Covered(f', u) || exists k :: Partial(f', k, u) {
      assert Covered(f, u) || exists k :: Partial(f, k, u);
      if u in f'.cache && !exists k :: Partial(f', k, u) {
        if id :| WillDrop(f, id, u) { assert WillDrop(f', id, u); }
      }
    }
    forall k ensures FillCovered(f', k) {
      if k in f'.fills && Open(f', k, f'.fills[k].user) {
        var u := f'.fills[k].user;
        assert Open(f, k, u) && FillCovered(f, k);
        if id :| Untouched(f, id, u) { assert Untouched(f', id, u); }
      }
    }
  }

  lemma BeginKeepsCoherent(f: Unlocked, j: nat, id: nat)
    requires CanMove(f, Begin(j, id)) && Undisturbed(f, Begin(j, id)) && AllCoherent(f)
    ensures AllCoherent(Moved(f, Begin(j, id)))
  {
    var f' := Moved(f, Begin(j, id));
    var author := f.messages[id].post.author;
    forall m, u | WillDrop(f, m, u) && Awaited(f', m, u) ensures WillDrop(f', m, u) {
      FollowersAreReaders(f.friends, u, author);
      var readers := Followers(f.friends, author);
      assert readers[0..] == readers;
    }
    QuietChangeKeepsCoherent(f, f');
  }

  lemma DropKeepsCoherent(f: Unlocked, j: nat)
    requires CanMove(f, DropNext(j)) && Undisturbed(f, DropNext(j)) && AllCoherent(f)
    ensures AllCoherent(Moved(f, DropNext(j)))
  {
    var f' := Moved(f, DropNext(j));
    var job := f.jobs[j];
    assert job.readers[job.done..] == [job.readers[job.done]] + job.readers[job.done + 1..];
    forall m, u | u in f'.cache && WillDrop(f, m, u) && Awaited(f', m, u) ensures WillDrop(f', m, u) {
      forall i | i in f'.jobs && f'.jobs[i].message == m ensures u in ToDrop(f'.jobs[i]) {
        assert u in ToDrop(f.jobs[i]);
      }
    }
    QuietChangeKeepsCoherent(f, f');
  }

  lemma QuietMoveKeepsCoherent(f: Unlocked, m: Move)
    requires m.Publish? || m.Del? || m.EndFill? || m.Abandon?
    requires CanMove(f, m) && Undisturbed(f, m) && AllCoherent(f)
    ensures AllCoherent(Moved(f, m))
  {
    QuietChangeKeepsCoherent(f, Moved(f, m));
  }

  lemma FriendMoveKeepsCoherent(f: Unlocked, m: Move)
    requires m.InsertFriend? || m.RemoveFriend?
    requires Undisturbed(f, m) && AllCoherent(f)
    ensures AllCoherent(Moved(f, m))
  {
    var f' := Moved(f, m);
    var changer := if m.InsertFriend? then m.row.user else m.user;
    assert forall k, u :: Open(f', k, u) <==> Open(f, k, u);
    forall u | u != changer ensures Follows(f'.friends, u) == Follows(f.friends, u) {
    }
    QuietChangeKeepsCoherent(f, f');
  }

  /** A write leaves a user's feed as it was, or its event will drop the user's list. */
  lemma WriteSeenByUser(f: Unlocked, t: Step, id: nat, user: Uuid)
    requires CanMove(f, Write(t, id)) && RowsIssued(Base(f))
    ensures var f' := Moved(f, Write(t, id));
            if t.post.author in Follows(f.friends, user)
            then Untouched(f', id, user) && WillDrop(f', id, user)
            else Fresh(true, Base(f'), user) == Fresh(true, Base(f), user)
  {
    if t.post.author !in Follows(f.friends, user) {
      FeedOnePost.WriteOfOthers(true, Base(f), t, user);
    }
  }

  lemma WriteKeepsMessages(f: Unlocked, t: Step, id: nat)
    requires CanMove(f, Write(t, id))
    ensures var f' := Moved(f, Write(t, id));
            && f'.cache == f.cache && f'.fills == f.fills
            && (forall m, u :: Untouched(f, m, u) ==> Untouched(f', m, u))
            && (forall m, u :: WillDrop(f, m, u) ==> WillDrop(f', m, u))
  {
  }

  lemma WriteKeepsCoherent(f: Unlocked, t: Step, id: nat)
    requires CanMove(f, Write(t, id)) && RowsIssued(Base(f)) && AllCoherent(f)
    ensures AllCoherent(Moved(f, Write(t, id)))
  {
    var f' := Moved(f, Write(t, id));
    WriteKeepsMessages(f, t, id);
    assert forall k, u :: Partial(f', k, u) <==> Partial(f, k, u);
    forall u ensures Covered(f', u) || exists k :: Partial(f', k, u) {
      assert Covered(f, u) || exists k :: Partial(f, k, u);
      WriteSeenByUser(f, t, id, u);
    }
    forall k ensures FillCovered(f', k) {
      assert FillCovered(f, k);
      if k in f.fills { WriteSeenByUser(f, t, id, f.fills[k].user); }
    }
  }

  lemma QueryKeepsCoherent(f: Unlocked, k: nat, user: Uuid)
    requires CanMove(f, Query(k, user)) && AllCoherent(f)
    ensures AllCoherent(Moved(f, Query(k, user)))
  {
    var f' := Moved(f, Query(k, user));
    assert forall l, u :: Partial(f', l, u) <==> Partial(f, l, u);
    assert forall m, u :: WillDrop(f, m, u) ==> WillDrop(f', m, u);
    assert forall m, u :: Untouched(f, m, u) ==> Untouched(f', m, u);
    forall u ensures Covered(f', u) || exists l :: Partial(f', l, u) {
      assert Covered(f, u) || exists l :: Partial(f, l, u);
    }
    forall l ensures FillCovered(f', l) {
      assert FillCovered(f, l);
    }
  }

  lemma FillsStayCovered(f: Unlocked, f': Unlocked)
    requires f'.rows == f.rows && f'.friends == f.friends && forall k :: FillCovered(f, k)
    requires forall k, u | Open(f', k, u) :: Open(f, k, u) && f'.fills[k].feed == f.fills[k].feed
    requires forall id, u | Untouched(f, id, u) :: Untouched(f', id, u)
    ensures forall k :: FillCovered(f', k)
  {
    forall k ensures FillCovered(f', k) {
      if k in f'.fills && Open(f', k, f'.fills[k].user) {
        assert Open(f, k, f'.fills[k].user) && FillCovered(f, k);
      }
    }
  }

  /** One RPUSH: the list grows by an element, and the others do not change. */
  lemma AppendExtends(f: Unlocked, k: nat)
    requires CanMove(f, AppendNext(k)) && Undisturbed(f, AppendNext(k)) && PartialSound(f)
    ensures var f', fill := Moved(f, AppendNext(k)), f.fills[k];
            && fill.user in f'.cache && f'.cache[fill.user] == fill.feed[..fill.done + 1]
            && (forall l, u | l != k :: Partial(f', l, u) <==> Partial(f, l, u))
            && (forall l | l != k :: !Partial(f, l, fill.user))
            && PartialSound(f')
  {
    var f', fill := Moved(f, AppendNext(k)), f.fills[k];
    assert fill.done > 0 ==> Partial(f, k, fill.user);
    assert fill.feed[..fill.done + 1] == fill.feed[..fill.done] + [fill.feed[fill.done]];
    forall l, u | Partial(f', l, u) ensures u in f'.cache && f'.cache[u] == f'.fills[l].feed[..f'.fills[l].done] {
      if l != k { assert Partial(f, l, u); }
    }
  }

  lemma AppendCoversList(f: Unlocked, k: nat)
    requires CanMove(f, AppendNext(k)) && FillCovered(f, k)
    requires var f', fill := Moved(f, AppendNext(k)), f.fills[k];
             fill.user in f'.cache && f'.cache[fill.user] == fill.feed[..fill.done + 1]
    ensures var f', user := Moved(f, AppendNext(k)), f.fills[k].user;
            Covered(f', user) || Partial(f', k, user)
  {
    var f', fill := Moved(f, AppendNext(k)), f.fills[k];
    if fill.done + 1 == |fill.feed| {
      assert fill.feed[..fill.done + 1] == fill.feed;
      if id :| Untouched(f, id, fill.user) { assert WillDrop(f', id, fill.user); }
    }
  }

  /** With the last element the list stands as it was queried. */
  lemma AppendKeepsCoherent(f: Unlocked, k: nat)
    requires CanMove(f, AppendNext(k)) && Undisturbed(f, AppendNext(k)) && AllCoherent(f)
    ensures AllCoherent(Moved(f, AppendNext(k)))
  {
    var f', fill := Moved(f, AppendNext(k)), f.fills[k];
    AppendExtends(f, k);
    FillsStayCovered(f, f');
    forall u ensures Covered(f', u) || exists l :: Partial(f', l, u) {
      if u == fill.user {
        AppendCoversList(f, k);
      } else {
        assert Covered(f, u) || exists l :: Partial(f, l, u);
        if l :| Partial(f, l, u) { assert Partial(f', l, u); }
        else if id :| WillDrop(f, id, u) { assert WillDrop(f', id, u); }
      }
    }
  }

  /** An acknowledged message has nobody left who counted on it. */
  lemma FinishKeepsCoherent(f: Unlocked, j: nat)
    requires CanMove(f, Finish(j)) && AllCoherent(f)
    ensures AllCoherent(Moved(f, Finish(j)))
  {
    var f' := Moved(f, Finish(j));
    assert ToDrop(f.jobs[j]) == [];
    assert forall m, u :: WillDrop(f, m, u) ==> m != f.jobs[j].message && WillDrop(f', m, u);
    assert forall l, u :: Partial(f', l, u) <==> Partial(f, l, u);
    FillsStayCovered(f, f');
    forall u ensures Covered(f', u) || exists l :: Partial(f', l, u) {
      assert Covered(f, u) || exists l :: Partial(f, l, u);
    }
  }

  /** Nobody counted on an event that is forgotten. */
  lemma ForgetKeepsCoherent(f: Unlocked, id: nat)
    requires CanMove(f, Forget(id)) && Undisturbed(f, Forget(id)) && AllCoherent(f)
    ensures AllCoherent(Moved(f, Forget(id)))
  {
    var f' := Moved(f, Forget(id));
    assert forall k, u :: Partial(f', k, u) <==> Partial(f, k, u);
    assert forall m, u | m != id :: WillDrop(f, m, u) ==> WillDrop(f', m, u);
    assert forall m, u | m != id :: Untouched(f, m, u) ==> Untouched(f', m, u);
    forall u ensures Covered(f', u) || exists k :: Partial(f', k, u) {
      assert Covered(f, u) || exists k :: Partial(f, k, u);
    }
    forall k ensures FillCovered(f', k) {
      assert FillCovered(f, k);
      if k in f.fills { assert Open(f, k, f.fills[k].user) ==> !Untouched(f, id, f.fills[k].user); }
    }
  }

  lemma MoveKeepsCoherent(f: Unlocked, m: Move)
    requires CanMove(f, m) && Undisturbed(f, m)
    requires RowsIssued(Base(f)) && AllCoherent(f)
    ensures AllCoherent(Moved(f, m))
  {
    match m
    case Write(t, id) => WriteKeepsCoherent(f, t, id);
    case Query(k, user) => QueryKeepsCoherent(f, k, user);
    case AppendNext(k) => AppendKeepsCoherent(f, k);
    case Begin(j, id) => BeginKeepsCoherent(f, j, id);
    case DropNext(j) => DropKeepsCoherent(f, j);
    case Finish(j) => FinishKeepsCoherent(f, j);
    case Forget(id) => ForgetKeepsCoherent(f, id);
    case InsertFriend(_) => FriendMoveKeepsCoherent(f, m);
    case RemoveFriend(_, _) => FriendMoveKeepsCoherent(f, m);
    case _ => QuietMoveKeepsCoherent(f, m);
  }

  lemma MoveKeepsRowsIssued(f: Unlocked, m: Move)
    requires CanMove(f, m) && RowsIssued(Base(f))
    ensures RowsIssued(Base(Moved(f, m)))
  {
    match m
    case Write(t, _) =>
      if t.Update? { UpdatedRowsKeepIssued(Base(f), t.post, t.now); }
    case _ =>
  }

  // ---- runs -------------------------------------------------------------------------------

  ghost predicate CanRun(f: Unlocked, ms: seq<Move>)
    decreases |ms|
  {
    ms == [] || (CanMove(f, ms[0]) && CanRun(Moved(f, ms[0]), ms[1..]))
  }

  ghost function AfterMoves(f: Unlocked, ms: seq<Move>): Unlocked
    requires CanRun(f, ms)
    decreases |ms|
  {
    if ms == [] then f else AfterMoves(Moved(f, ms[0]), ms[1..])
  }

  ghost predicate UndisturbedRun(f: Unlocked, ms: seq<Move>)
    requires CanRun(f, ms)
    decreases |ms|
  {
    ms == [] || (Undisturbed(f, ms[0]) && UndisturbedRun(Moved(f, ms[0]), ms[1..]))
  }

  lemma {:induction false} CoherentAfterEveryRun(f: Unlocked, ms: seq<Move>)
    requires CanRun(f, ms) && UndisturbedRun(f, ms) && RowsIssued(Base(f)) && AllCoherent(f)
    ensures AllCoherent(AfterMoves(f, ms))
    decreases |ms|
  {
    if ms == [] {
    } else {
      MoveKeepsRowsIssued(f, ms[0]);
      MoveKeepsCoherent(f, ms[0]);
      CoherentAfterEveryRun(Moved(f, ms[0]), ms[1..]);
    }
  }

  /** After any undisturbed run a reader for whom no event of a followed author is pending or
      still to be published, and no fill is half-way, has no list, or exactly what the query
      returns now. */
  lemma DrainedListIsFresh(s: State, ms: seq<Move>, user: Uuid)
    requires Initial(s) && CanRun(Started(s), ms) && UndisturbedRun(Started(s), ms)
    requires var z := AfterMoves(Started(s), ms);
             (forall id :: !Awaited(z, id, user)) && forall k :: !Partial(z, k, user)
    ensures var z := AfterMoves(Started(s), ms);
            user in z.cache ==> Right(z, z.cache[user], user)
  {
    CoherentAfterEveryRun(Started(s), ms);
    var z := AfterMoves(Started(s), ms);
    assert Covered(z, user) || exists k :: Partial(z, k, user);
  }

  // ---- undisturbed handlers are the steps of the coarse model ---------------------------------

  lemma MoveThenRun(f: Unlocked, m: Move, ms: seq<Move>)
    requires CanMove(f, m) && CanRun(Moved(f, m), ms)
    ensures CanRun(f, [m] + ms) && AfterMoves(f, [m] + ms) == AfterMoves(Moved(f, m), ms)
    ensures UndisturbedRun(f, [m] + ms) <==> Undisturbed(f, m) && UndisturbedRun(Moved(f, m), ms)
  {
    assert ([m] + ms)[1..] == ms;
  }

  lemma {:induction false} MovesCompose(f: Unlocked, one: seq<Move>, two: seq<Move>)
    requires CanRun(f, one) && CanRun(AfterMoves(f, one), two)
    ensures CanRun(f, one + two) && AfterMoves(f, one + two) == AfterMoves(AfterMoves(f, one), two)
    decreases |one|
  {
    if one == [] {
      assert one + two == two;
    } else {
      MovesCompose(Moved(f, one[0]), one[1..], two);
      assert (one + two)[1..] == one[1..] + two;
    }
  }

  lemma {:induction false} UndisturbedCompose(f: Unlocked, one: seq<Move>, two: seq<Move>)
    requires CanRun(f, one) && CanRun(AfterMoves(f, one), two) && CanRun(f, one + two)
    ensures UndisturbedRun(f, one + two) <==> UndisturbedRun(f, one) && UndisturbedRun(AfterMoves(f, one), two)
    decreases |one|
  {
    if one == [] {
      assert one + two == two;
    } else {
      assert (one + two)[1..] == one[1..] + two;
      UndisturbedCompose(Moved(f, one[0]), one[1..], two);
    }
  }

  /** A first move, a loop, and a last move. */
  lemma LoopBetween(f: Unlocked, first: Move, loop: seq<Move>, last: Move)
    requires CanMove(f, first) && CanRun(Moved(f, first), loop)
    requires CanMove(AfterMoves(Moved(f, first), loop), last)
    ensures var ms, z := [first] + (loop + [last]), AfterMoves(Moved(f, first), loop);
            && CanRun(f, ms) && AfterMoves(f, ms) == Moved(z, last)
            && (UndisturbedRun(f, ms)
                <==> Undisturbed(f, first) && UndisturbedRun(Moved(f, first), loop) && Undisturbed(z, last))
  {
    var z := AfterMoves(Moved(f, first), loop);
    MoveThenRun(z, last, []);
    assert [last] + [] == [last];
    MovesCompose(Moved(f, first), loop, [last]);
    UndisturbedCompose(Moved(f, first), loop, [last]);
    MoveThenRun(f, first, loop + [last]);
  }

  function Repeated(m: Move, n: nat): seq<Move> {
    if n == 0 then [] else [m] + Repeated(m, n - 1)
  }

  ghost predicate Counted(f: Unlocked) {
    && (forall k | k in f.fills :: f.fills[k].done <= |f.fills[k].feed|)
    && (forall j | j in f.jobs :: f.jobs[j].done <= |f.jobs[j].readers|)
  }

  /** What is left of the fill, under whatever the list holds. */
  ghost function Filled(f: Unlocked, k: nat): Unlocked
    requires Counted(f) && k in f.fills
  {
    var fill := f.fills[k];
    var rest := fill.feed[fill.done..];
    f.(cache := if rest == [] then f.cache else f.cache[fill.user := At(f.cache, fill.user) + rest],
       fills := f.fills[k := fill.(done := |fill.feed|)])
  }

  lemma FilledFromNext(f: Unlocked, k: nat)
    requires Counted(f) && CanMove(f, AppendNext(k))
    ensures Counted(Moved(f, AppendNext(k))) && Filled(Moved(f, AppendNext(k)), k) == Filled(f, k)
  {
    var f', fill := Moved(f, AppendNext(k)), f.fills[k];
    var at, rest := At(f.cache, fill.user), fill.feed[fill.done + 1..];
    AppendFirst(at, fill.feed, fill.done);
    assert rest == [] ==> at + fill.feed[fill.done..] == at + [fill.feed[fill.done]];
    assert f'.fills[k := f'.fills[k].(done := |fill.feed|)] == f.fills[k := fill.(done := |fill.feed|)];
  }

  lemma AppendFirst(at: seq<Entry>, feed: seq<Entry>, done: nat)
    requires done < |feed|
    ensures at + feed[done..] == (at + [feed[done]]) + feed[done + 1..]
  {
  }

  function Appends(f: Unlocked, k: nat): seq<Move>
    requires k in f.fills && f.fills[k].done <= |f.fills[k].feed|
  {
    Repeated(AppendNext(k), |f.fills[k].feed| - f.fills[k].done)
  }

  ghost predicate StartsAlone(f: Unlocked, k: nat)
    requires k in f.fills
  {
    f.fills[k].done == 0 < |f.fills[k].feed| ==> f.fills[k].user !in f.cache
  }

  /** The RPUSH loop. */
  lemma {:induction false} AppendsFill(f: Unlocked, k: nat)
    requires Counted(f) && k in f.fills
    ensures CanRun(f, Appends(f, k)) && AfterMoves(f, Appends(f, k)) == Filled(f, k)
    ensures UndisturbedRun(f, Appends(f, k)) <==> StartsAlone(f, k)
    decreases |f.fills[k].feed| - f.fills[k].done
  {
    var fill := f.fills[k];
    if fill.done == |fill.feed| {
      assert f.fills[k := fill.(done := |fill.feed|)] == f.fills;
    } else {
      var f' := Moved(f, AppendNext(k));
      FilledFromNext(f, k);
      AppendsFill(f', k);
      MoveThenRun(f, AppendNext(k), Appends(f', k));
    }
  }

  function ReadMoves(f: Unlocked, k: nat, user: Uuid): seq<Move> {
    [Query(k, user)] + (Repeated(AppendNext(k), |Fresh(true, Base(f), user)|) + [EndFill(k)])
  }

  /** A miss that nobody disturbs is the model's read. */
  lemma UndisturbedMissIsRead(f: Unlocked, k: nat, user: Uuid)
    requires Counted(f) && k !in f.fills && user !in f.cache
    ensures CanRun(f, ReadMoves(f, k, user)) && UndisturbedRun(f, ReadMoves(f, k, user))
    ensures AfterMoves(f, ReadMoves(f, k, user)) == f.(cache := Next(true, Base(f), Read(user)).cache)
  {
    var f1 := Moved(f, Query(k, user));
    FillOnceIsStored(f, k, user, Entries(Fresh(true, Base(f), user)));
    AppendsFill(f1, k);
    LoopBetween(f, Query(k, user), Appends(f1, k), EndFill(k));
  }

  /** One fill from its start to its end stores the queried list. */
  lemma FillOnceIsStored(f: Unlocked, k: nat, user: Uuid, feed: seq<Entry>)
    requires Counted(f) && k !in f.fills && user !in f.cache
    ensures var f1 := f.(fills := f.fills[k := Fill(user, feed, 0)]);
            && Counted(f1) && StartsAlone(f1, k) && !Partial(Filled(f1, k), k, user)
            && Moved(Filled(f1, k), EndFill(k)) == f.(cache := Stored(f.cache, user, feed))
  {
    var f1 := f.(fills := f.fills[k := Fill(user, feed, 0)]);
    assert feed[0..] == feed && At(f.cache, user) + feed == feed;
    assert Filled(f1, k).fills - {k} == f.fills;
    assert feed == [] ==> f.cache - {user} == f.cache;
  }

  /** The job with its DEL loop done. */
  ghost function DroppedAll(f: Unlocked, j: nat): Unlocked
    requires Counted(f) && j in f.jobs
  {
    var job := f.jobs[j];
    f.(cache := Dropped(f.cache, job.readers[job.done..]), jobs := f.jobs[j := job.(done := |job.readers|)])
  }

  lemma DroppedAllFromNext(f: Unlocked, j: nat)
    requires Counted(f) && CanMove(f, DropNext(j))
    ensures Counted(Moved(f, DropNext(j))) && DroppedAll(Moved(f, DropNext(j)), j) == DroppedAll(f, j)
  {
    var job := f.jobs[j];
    var first, rest := job.readers[job.done], job.readers[job.done + 1..];
    assert job.readers[job.done..] == [first] + rest;
    assert Dropped(f.cache - {first}, rest) == Dropped(f.cache, [first] + rest);
  }

  lemma NothingLeftToDrop(f: Unlocked, j: nat)
    requires Counted(f) && j in f.jobs && f.jobs[j].done == |f.jobs[j].readers|
    ensures DroppedAll(f, j) == f
  {
    assert f.jobs[j := f.jobs[j]] == f.jobs;
    assert f.jobs[j].readers[f.jobs[j].done..] == [];
    assert Dropped(f.cache, []) == f.cache;
  }

  lemma {:induction false} DropsReaders(f: Unlocked, j: nat)
    requires Counted(f) && j in f.jobs
    ensures var drops := Repeated(DropNext(j), |f.jobs[j].readers| - f.jobs[j].done);
            CanRun(f, drops) && AfterMoves(f, drops) == DroppedAll(f, j)
    decreases |f.jobs[j].readers| - f.jobs[j].done
  {
    var job := f.jobs[j];
    if job.done == |job.readers| {
      NothingLeftToDrop(f, j);
    } else {
      var f' := Moved(f, DropNext(j));
      DroppedAllFromNext(f, j);
      DropsReaders(f', j);
      MoveThenRun(f, DropNext(j), Repeated(DropNext(j), |job.readers| - job.done - 1));
    }
  }

  /** One job from its start to its end drops the lists of the readers looked up. */
  lemma JobOnceDrops(f: Unlocked, j: nat, id: nat, readers: seq<Uuid>)
    requires Counted(f) && j !in f.jobs
    ensures var f1 := f.(jobs := f.jobs[j := Job(id, readers, 0)]);
            && Counted(f1) && CanMove(DroppedAll(f1, j), Finish(j))
            && Moved(DroppedAll(f1, j), Finish(j))
               == f.(cache := Dropped(f.cache, readers), messages := f.messages - {id})
  {
    var f1 := f.(jobs := f.jobs[j := Job(id, readers, 0)]);
    assert readers[0..] == readers;
    assert DroppedAll(f1, j).jobs - {j} == f.jobs;
  }

  function ConsumeMoves(f: Unlocked, j: nat, id: nat): seq<Move>
    requires id in f.messages
  {
    [Begin(j, id)] + (Repeated(DropNext(j), |Followers(f.friends, f.messages[id].post.author)|) + [Finish(j)])
  }

  /** A consumer that nobody disturbs does what the model's consumer does. */
  lemma UndisturbedJobIsDelivery(f: Unlocked, j: nat, id: nat)
    requires Counted(f) && CanMove(f, Begin(j, id))
    ensures CanRun(f, ConsumeMoves(f, j, id))
    ensures AfterMoves(f, ConsumeMoves(f, j, id)) ==
              f.(cache := Consumed(true, f.cache, f.messages[id], Followers(f.friends, f.messages[id].post.author)),
                 messages := f.messages - {id})
  {
    var readers := Followers(f.friends, f.messages[id].post.author);
    var f1 := Moved(f, Begin(j, id));
    JobOnceDrops(f, j, id, readers);
    DropsReaders(f1, j);
    LoopBetween(f, Begin(j, id), Repeated(DropNext(j), |readers|), Finish(j));
  }

  /** A queue in some order with the events of finished writes, published or not. */
  ghost predicate Enumerates(queue: seq<Event>, f: Unlocked) {
    && (forall id | id in f.messages :: f.messages[id] in queue)
    && (forall e | e in queue :: exists id :: id in f.messages && f.messages[id] == e)
  }

  /** A write without its publication is a step of the state in which published and unpublished
      events form one queue. */
  lemma WriteIsPooledStep(f: Unlocked, t: Step, id: nat, queue: seq<Event>)
    requires CanMove(f, Write(t, id)) && Enumerates(queue, f)
    ensures var s, f' := Base(f).(queue := queue), Moved(f, Write(t, id));
            && Enabled(s, t)
            && Next(true, s, t) == Base(f').(queue := queue + [f'.messages[id]])
            && Enumerates(queue + [f'.messages[id]], f')
  {
    var f' := Moved(f, Write(t, id));
    forall e | e in queue + [f'.messages[id]] ensures exists i :: i in f'.messages && f'.messages[i] == e {
      if e in queue {
        var i :| i in f.messages && f.messages[i] == e;
        assert i in f'.messages && f'.messages[i] == e;
      }
    }
  }

  /** Between handlers coherence here is coherence there. */
  lemma IdleCoherentIff(f: Unlocked, queue: seq<Event>)
    requires Enumerates(queue, f) && f.fills == map[] && f.jobs == map[]
    ensures AllCoherent(f) <==> FeedOnePost.Coherent(Base(f).(queue := queue))
  {
    var s := Base(f).(queue := queue);
    forall u ensures FeedOnePost.Pending(s, u) <==> exists id :: WillDrop(f, id, u) {
      if FeedOnePost.Pending(s, u) {
        var e :| e in queue && e.post.author in Follows(f.friends, u);
        var id :| id in f.messages && f.messages[id] == e;
        assert WillDrop(f, id, u);
      }
    }
    assert forall u :: FeedOnePost.Covered(s, u) <==> Covered(f, u);
  }
}
