/** Every run of the coarse one-post model is an undisturbed run of single commands: its steps are
    handlers that happen not to meet. */
module FeedRefinement {
  import opened Posts
  import opened Friends
  import opened RedisLists
  import opened FeedModel
  import opened FeedUnlocked

  /** Nothing is under way, every event is published, and the messages are those of the queue, each
      under a number of its own. */
  ghost predicate Represents(f: Unlocked, s: State, ids: seq<nat>) {
    && f.rows == s.rows && f.friends == s.friends && f.cache == s.cache && f.issued == s.issued
    && f.unpublished == {} && f.fills == map[] && f.jobs == map[]
    && |ids| == |s.queue|
    && (forall i, j | 0 <= i < j < |ids| :: ids[i] != ids[j])
    && (forall id :: id in f.messages <==> id in ids)
    && (forall i | 0 <= i < |ids| :: ids[i] in f.messages && f.messages[ids[i]] == s.queue[i])
  }

  predicate Harmless(m: Move) {
    m.Write? || m.Publish? || m.Del? || m.Begin? || m.DropNext? || m.Finish? || m.Abandon?
  }

  /** With no fill under way only a change of friends and a lost event disturb. */
  lemma {:induction false} HarmlessRun(f: Unlocked, ms: seq<Move>)
    requires CanRun(f, ms) && f.fills == map[] && forall m | m in ms :: Harmless(m)
    ensures UndisturbedRun(f, ms) && AfterMoves(f, ms).fills == map[]
    decreases |ms|
  {
    if ms == [] {
    } else {
      assert ms[0] in ms;
      assert Undisturbed(f, ms[0]) && Moved(f, ms[0]).fills == map[];
      HarmlessRun(Moved(f, ms[0]), ms[1..]);
    }
  }

  /** A number that no message has. */
  function Unused(ids: seq<nat>): (n: nat)
    ensures forall i | 0 <= i < |ids| :: ids[i] < n
  {
    if ids == [] then 0
    else
      var m := Unused(ids[1..]);
      assert forall i | 0 < i < |ids| :: ids[i] == ids[1..][i - 1];
      if ids[0] < m then m else ids[0] + 1
  }

  // ---- reads and writes ----------------------------------------------------------------------

  lemma ReadIsMoves(f: Unlocked, s: State, ids: seq<nat>, user: Uuid) returns (ms: seq<Move>)
    requires Represents(f, s, ids)
    ensures CanRun(f, ms) && UndisturbedRun(f, ms) && Represents(AfterMoves(f, ms), Next(true, s, Read(user)), ids)
  {
    if user in s.cache {
      ms := [];
    } else {
      ms := ReadMoves(f, 0, user);
      UndisturbedMissIsRead(f, 0, user);
      assert Fresh(true, Base(f), user) == Fresh(true, s, user);
    }
  }

  lemma WriteIsMoves(f: Unlocked, s: State, ids: seq<nat>, t: Step) returns (ms: seq<Move>, ids': seq<nat>)
    requires Represents(f, s, ids) && Enabled(s, t) && (t.Create? || t.Update? || t.Delete?)
    ensures CanRun(f, ms) && UndisturbedRun(f, ms) && Represents(AfterMoves(f, ms), Next(true, s, t), ids')
  {
    var id := Unused(ids);
    ids' := ids + [id];
    ms := [Write(t, id), Publish(id)];
    var f1 := Moved(f, Write(t, id));
    var f2 := Moved(f1, Publish(id));
    MoveThenRun(f1, Publish(id), []);
    MoveThenRun(f, Write(t, id), [Publish(id)]);
    WrittenRepresents(f, f2, s, ids, t, id);
  }

  lemma WrittenRepresents(f: Unlocked, z: Unlocked, s: State, ids: seq<nat>, t: Step, id: nat)
    requires Represents(f, s, ids) && Enabled(s, t) && (t.Create? || t.Update? || t.Delete?)
    requires id !in ids && CanMove(f, Write(t, id))
    requires z == Moved(Moved(f, Write(t, id)), Publish(id))
    ensures Represents(z, Next(true, s, t), ids + [id])
  {
    var next := Next(true, s, t);
    assert z.messages == f.messages[id := next.queue[|s.queue|]];
    assert next.queue == s.queue + [next.queue[|s.queue|]];
    assert z.unpublished == {};
  }

  // ---- the consumer -----------------------------------------------------------------------------

  /** The job with n more lists dropped. */
  ghost function DroppedSome(f: Unlocked, j: nat, n: nat): Unlocked
    requires j in f.jobs && f.jobs[j].done + n <= |f.jobs[j].readers|
  {
    var job := f.jobs[j];
    f.(cache := Dropped(f.cache, job.readers[job.done..job.done + n]), jobs := f.jobs[j := job.(done := job.done + n)])
  }

  lemma DroppedSomeFromNext(f: Unlocked, j: nat, n: nat)
    requires j in f.jobs && f.jobs[j].done + n <= |f.jobs[j].readers| && 0 < n
    ensures DroppedSome(Moved(f, DropNext(j)), j, n - 1) == DroppedSome(f, j, n)
  {
    var job := f.jobs[j];
    var first, rest := job.readers[job.done], job.readers[job.done + 1..job.done + n];
    assert job.readers[job.done..job.done + n] == [first] + rest;
    assert Dropped(f.cache - {first}, rest) == Dropped(f.cache, [first] + rest);
  }

  lemma NothingToDrop(f: Unlocked, j: nat)
    requires j in f.jobs && f.jobs[j].done <= |f.jobs[j].readers|
    ensures DroppedSome(f, j, 0) == f
  {
    assert f.jobs[j := f.jobs[j]] == f.jobs;
    assert Dropped(f.cache, []) == f.cache;
  }

  lemma {:induction false} DropsSome(f: Unlocked, j: nat, n: nat)
    requires j in f.jobs && f.jobs[j].done + n <= |f.jobs[j].readers|
    ensures CanRun(f, Repeated(DropNext(j), n)) && AfterMoves(f, Repeated(DropNext(j), n)) == DroppedSome(f, j, n)
    decreases n
  {
    if n == 0 {
      NothingToDrop(f, j);
    } else {
      DroppedSomeFromNext(f, j, n);
      DropsSome(Moved(f, DropNext(j)), j, n - 1);
      MoveThenRun(f, DropNext(j), Repeated(DropNext(j), n - 1));
    }
  }

  lemma RepeatedHarmless(j: nat, n: nat)
    ensures forall m | m in Repeated(DropNext(j), n) :: Harmless(m)
  {
  }

  /** A consumer that reaches n readers and then acknowledges or stops. */
  lemma HandlingIsMoves(f: Unlocked, id: nat, n: nat, last: Move) returns (ms: seq<Move>)
    requires f.fills == map[] && f.jobs == map[] && id in f.messages && id !in f.unpublished
    requires n <= |Followers(f.friends, f.messages[id].post.author)|
    requires last == Abandon(0) || (last == Finish(0) && n == |Followers(f.friends, f.messages[id].post.author)|)
    ensures CanRun(f, ms) && UndisturbedRun(f, ms)
    ensures AfterMoves(f, ms) ==
              f.(cache := Dropped(f.cache, Followers(f.friends, f.messages[id].post.author)[..n]),
                 messages := if last.Finish? then f.messages - {id} else f.messages)
  {
    var readers := Followers(f.friends, f.messages[id].post.author);
    var drops := Repeated(DropNext(0), n);
    var f1 := Moved(f, Begin(0, id));
    ms := [Begin(0, id)] + (drops + [last]);
    DropsSome(f1, 0, n);
    assert readers[0..n] == readers[..n];
    var f2 := AfterMoves(f1, drops);
    assert f2.jobs - {0} == map[];
    LoopBetween(f, Begin(0, id), drops, last);
    RepeatedHarmless(0, n);
    HarmlessRun(f, ms);
  }

  lemma DeliveryIsMoves(f: Unlocked, s: State, ids: seq<nat>, t: Step) returns (ms: seq<Move>, ids': seq<nat>)
    requires Represents(f, s, ids) && Enabled(s, t) && (t.Deliver? || t.DeliverPart?)
    ensures CanRun(f, ms) && UndisturbedRun(f, ms) && Represents(AfterMoves(f, ms), Next(true, s, t), ids')
  {
    var id := ids[t.index];
    var readers := Followers(s.friends, s.queue[t.index].post.author);
    assert readers[..|readers|] == readers;
    if t.Deliver? && t.acked {
      ms := HandlingIsMoves(f, id, |readers|, Finish(0));
      ids' := ids[..t.index] + ids[t.index + 1..];
      AcknowledgedRepresents(f.messages, s.queue, ids, t.index);
    } else {
      ms := HandlingIsMoves(f, id, if t.Deliver? then |readers| else t.reached, Abandon(0));
      ids' := ids;
    }
  }

  /** What is at position i after position k is taken out. */
  function Shifted(k: nat, i: nat): nat {
    if i < k then i else i + 1
  }

  lemma WithoutPosition<T>(s: seq<T>, k: nat)
    requires k < |s|
    ensures var rest := s[..k] + s[k + 1..];
            && |rest| == |s| - 1
            && (forall i | 0 <= i < |rest| :: rest[i] == s[Shifted(k, i)])
            && (forall i | 0 <= i < |s| && i != k :: s[i] in rest)
  {
    var rest := s[..k] + s[k + 1..];
    forall i | 0 <= i < |s| && i != k ensures s[i] in rest {
      assert rest[if i < k then i else i - 1] == s[i];
    }
  }

  lemma AcknowledgedRepresents(messages: map<nat, Event>, queue: seq<Event>, ids: seq<nat>, k: nat)
    requires k < |ids| == |queue| && (forall i, j | 0 <= i < j < |ids| :: ids[i] != ids[j])
    requires (forall id :: id in messages <==> id in ids)
    requires forall i | 0 <= i < |ids| :: ids[i] in messages && messages[ids[i]] == queue[i]
    ensures var rest, left := ids[..k] + ids[k + 1..], messages - {ids[k]};
            && (forall i, j | 0 <= i < j < |rest| :: rest[i] != rest[j])
            && (forall id :: id in left <==> id in rest)
            && (forall i | 0 <= i < |rest| :: rest[i] in left && left[rest[i]] == Removed(queue, k)[i])
  {
    var rest, left := ids[..k] + ids[k + 1..], messages - {ids[k]};
    WithoutPosition(ids, k);
    WithoutPosition(queue, k);
    forall i | 0 <= i < |rest| ensures rest[i] in left && left[rest[i]] == Removed(queue, k)[i] {
      assert ids[Shifted(k, i)] != ids[k];
    }
    forall id | id in left ensures id in rest {
      var i :| 0 <= i < |ids| && ids[i] == id;
    }
  }

  // ---- friends --------------------------------------------------------------------------------

  function Dels(users: seq<Uuid>): seq<Move> {
    if users == [] then [] else [Del(users[0])] + Dels(users[1..])
  }

  lemma {:induction false} DelsDrop(f: Unlocked, users: seq<Uuid>)
    ensures CanRun(f, Dels(users)) && AfterMoves(f, Dels(users)) == f.(cache := Dropped(f.cache, users))
    ensures forall m | m in Dels(users) :: Harmless(m)
    decreases |users|
  {
    if users == [] {
      assert Dropped(f.cache, []) == f.cache;
    } else {
      DelsDrop(Moved(f, Del(users[0])), users[1..]);
      MoveThenRun(f, Del(users[0]), Dels(users[1..]));
      assert users == [users[0]] + users[1..];
      assert Dropped(f.cache - {users[0]}, users[1..]) == Dropped(f.cache, users);
    }
  }

  lemma FriendsAndUser(friends: seq<Friend>, user: Uuid)
    ensures (set u | u in Names(RowsOfUser(friends, user)) + [user]) == Follows(friends, user) + {user}
  {
    var names := Names(RowsOfUser(friends, user));
    NamesAreFollows(friends, user);
    assert (set u | u in names + [user]) == (set u | u in names) + {user};
  }

  /** The DELs of an invalidation and the change of the relation. */
  lemma ChangeIsMoves(f: Unlocked, user: Uuid, change: Move) returns (ms: seq<Move>)
    requires f.fills == map[]
    requires (change.InsertFriend? && change.row.user == user) || (change.RemoveFriend? && change.user == user)
    ensures CanRun(f, ms) && UndisturbedRun(f, ms)
    ensures AfterMoves(f, ms) == Moved(f, change).(cache := Invalidated(Base(f), user))
  {
    var users := Names(RowsOfUser(f.friends, user)) + [user];
    var dels := Dels(users);
    FriendsAndUser(f.friends, user);
    DelsDrop(f, users);
    HarmlessRun(f, dels);
    var f1 := AfterMoves(f, dels);
    MoveThenRun(f1, change, []);
    MovesCompose(f, dels, [change]);
    UndisturbedCompose(f, dels, [change]);
    ms := dels + [change];
  }

  lemma FriendChangeIsMoves(f: Unlocked, s: State, ids: seq<nat>, t: Step) returns (ms: seq<Move>)
    requires Represents(f, s, ids) && (t.FriendSet? || t.FriendDelete?)
    ensures CanRun(f, ms) && UndisturbedRun(f, ms) && Represents(AfterMoves(f, ms), Next(true, s, t), ids)
  {
    match t
    case FriendSet(row) =>
      if QueryOne(PairRows(s.friends, row.user, row.friend)).Some? {
        ms := [];
      } else {
        ms := ChangeIsMoves(f, row.user, InsertFriend(row));
      }
    case FriendDelete(user, friend) =>
      if QueryOne(PairRows(s.friends, user, friend)).None? {
        ms := [];
      } else {
        ms := ChangeIsMoves(f, user, RemoveFriend(user, friend));
      }
  }

  // ---- runs -------------------------------------------------------------------------------

  lemma StepIsMoves(f: Unlocked, s: State, ids: seq<nat>, t: Step) returns (ms: seq<Move>, ids': seq<nat>)
    requires Represents(f, s, ids) && Enabled(s, t)
    ensures CanRun(f, ms) && UndisturbedRun(f, ms) && Represents(AfterMoves(f, ms), Next(true, s, t), ids')
  {
    ids' := ids;
    match t
    case Read(user) => ms := ReadIsMoves(f, s, ids, user);
    case Deliver(_, _) => ms, ids' := DeliveryIsMoves(f, s, ids, t);
    case DeliverPart(_, _) => ms, ids' := DeliveryIsMoves(f, s, ids, t);
    case FriendSet(_) => ms := FriendChangeIsMoves(f, s, ids, t);
    case FriendDelete(_, _) => ms := FriendChangeIsMoves(f, s, ids, t);
    case _ => ms, ids' := WriteIsMoves(f, s, ids, t);
  }

  /** Every run of the coarse model, with any order, repetition and partial handling of messages,
      is an undisturbed run of commands with the same tables and the same cache at its end. */
  lemma {:induction false} RunIsMoves(f: Unlocked, s: State, ids: seq<nat>, ts: seq<Step>)
    returns (ms: seq<Move>, ids': seq<nat>)
    requires Represents(f, s, ids) && IsRun(true, s, ts)
    ensures CanRun(f, ms) && UndisturbedRun(f, ms) && Represents(AfterMoves(f, ms), After(true, s, ts), ids')
    decreases |ts|
  {
    if ts == [] {
      ms, ids' := [], ids;
    } else {
      var first, rest, mid;
      first, mid := StepIsMoves(f, s, ids, ts[0]);
      rest, ids' := RunIsMoves(AfterMoves(f, first), Next(true, s, ts[0]), mid, ts[1..]);
      MovesCompose(f, first, rest);
      UndisturbedCompose(f, first, rest);
      ms := first + rest;
    }
  }
}
