/** The consumer taken apart: it looks the readers up, then goes from list to list, and all the
    while handlers and readers carry on. Both modes; one consumer. */
module FeedConsumer {
  import opened Options
  import opened Posts
  import opened Friends
  import opened RedisLists
  import opened FeedModel
  import opened FeedSafety

  /** The message at `index`, the readers of its author at the lookup, and how many of their
      lists are done. */
  datatype Job = Job(index: nat, event: Event, readers: seq<Uuid>, done: nat)

  datatype Busy = Busy(base: State, job: Option<Job>)

  datatype Move =
    | Other(t: Step)
    | Begin(index: nat)
    | Reach
    | Finish
      // The consumer stops half-way; the message stays and will be delivered again.
    | Abandon

  /** The job knows its message and has not run past its readers. */
  ghost predicate JobSound(b: Busy) {
    b.job.Some? ==>
      && b.job.value.index < |b.base.queue| && b.base.queue[b.job.value.index] == b.job.value.event
      && b.job.value.done <= |b.job.value.readers|
  }

  ghost predicate CanMove(b: Busy, m: Move) {
    match m
    case Other(t) => !t.Deliver? && !t.DeliverPart? && Enabled(b.base, t)
    case Begin(i) => b.job.None? && i < |b.base.queue|
    case Reach => b.job.Some? && b.job.value.done < |b.job.value.readers|
    case Finish => JobSound(b) && b.job.Some? && b.job.value.done == |b.job.value.readers|
    case Abandon => b.job.Some?
  }

  ghost function Moved(onePost: bool, b: Busy, m: Move): Busy
    requires CanMove(b, m)
  {
    match m
    case Other(t) => b.(base := Next(onePost, b.base, t))
    case Begin(i) =>
      var e := b.base.queue[i];
      b.(job := Some(Job(i, e, Followers(b.base.friends, e.post.author), 0)))
    case Reach =>
      var job := b.job.value;
      Busy(b.base.(cache := Consumed(onePost, b.base.cache, job.event, [job.readers[job.done]])),
           Some(job.(done := job.done + 1)))
    case Finish => Busy(b.base.(queue := Removed(b.base.queue, b.job.value.index)), None)
    case Abandon => b.(job := None)
  }

  function ToReach(job: Job): seq<Uuid> {
    if job.done <= |job.readers| then job.readers[job.done..] else []
  }

  /** The message is pushed onto lists, not used to drop them. */
  predicate Pushes(onePost: bool, e: Event) {
    e.kind.CREATED? && !onePost
  }

  /** No reader leaves the author of a post that is about to be pushed onto the reader's list. */
  ghost predicate Undisturbed(onePost: bool, b: Busy, m: Move) {
    m.Other? && m.t.FriendDelete? && b.job.Some? && Pushes(onePost, b.job.value.event)
    && m.t.friend == b.job.value.event.post.author
    ==> m.t.user !in ToReach(b.job.value)
  }

  /** The readers still to be reached follow the author. */
  ghost predicate StillReaders(onePost: bool, b: Busy) {
    b.job.Some? && Pushes(onePost, b.job.value.event) ==>
      forall u | u in ToReach(b.job.value) :: b.job.value.event.post.author in Follows(b.base.friends, u)
  }

  // ---- one move -------------------------------------------------------------------------------

  /** Reaching one reader's list breaks the rule that lists show followed authors exactly when a
      post is pushed whose author the reader does not follow any more. */
  lemma ReachBreaksIff(onePost: bool, b: Busy)
    requires CanMove(b, Reach) && AuthorsFollowed(b.base)
    ensures AuthorsFollowed(Moved(onePost, b, Reach).base)
       <==> (Pushes(onePost, b.job.value.event) ==>
               b.job.value.event.post.author
               in Follows(b.base.friends, b.job.value.readers[b.job.value.done]))
  {
    var job := b.job.value;
    var u, x := job.readers[job.done], Entry(job.event.post, job.event.postId);
    var z := Moved(onePost, b, Reach).base;
    if Pushes(onePost, job.event) {
      assert [u][..0] == [];
      assert PushedAll(b.base.cache, [u], x) == Pushed(b.base.cache, u, x);
      forall v, y | v in z.cache && y in z.cache[v] ensures (y == x && v == u) || (v in b.base.cache && y in b.base.cache[v]) {
        PushedAllGrows(b.base.cache, [u], x, v);
      }
      assert z.cache[u] == Range([x] + At(b.base.cache, u), 0, FEED_LENGTH);
      assert z.cache[u][0] == x;
      assert x in z.cache[u];
    }
  }

  lemma OtherKeepsJob(onePost: bool, b: Busy, t: Step)
    requires CanMove(b, Other(t)) && JobSound(b)
    ensures JobSound(Moved(onePost, b, Other(t)))
  {
    assert b.base.queue <= Next(onePost, b.base, t).queue;
  }

  lemma OtherKeepsReaders(onePost: bool, b: Busy, t: Step)
    requires CanMove(b, Other(t)) && Undisturbed(onePost, b, Other(t)) && StillReaders(onePost, b)
    ensures StillReaders(onePost, Moved(onePost, b, Other(t)))
  {
    if b.job.Some? && Pushes(onePost, b.job.value.event) {
      var author, s' := b.job.value.event.post.author, Next(onePost, b.base, t);
      forall u | u in ToReach(b.job.value) ensures author in Follows(s'.friends, u) {
        assert author in Follows(b.base.friends, u);
        var f :| f in b.base.friends && f.user == u && f.friend == author;
        assert f in s'.friends;
      }
    }
  }

  /** Whatever the interleaving, entries come from issued rows and lists keep their bounds. */
  lemma MoveKeepsIssued(onePost: bool, b: Busy, m: Move)
    requires CanMove(b, m) && JobSound(b) && TablesSound(b.base)
    requires EntriesIssued(b.base) && ListsBounded(onePost, b.base)
    ensures var b' := Moved(onePost, b, m);
            && JobSound(b') && TablesSound(b'.base)
            && EntriesIssued(b'.base) && ListsBounded(onePost, b'.base)
  {
    match m
    case Other(t) =>
      OtherKeepsJob(onePost, b, t);
      TablesStaySound(onePost, b.base, t);
      StepKeepsIssued(onePost, b.base, t);
    case Reach =>
      var job := b.job.value;
      assert b.base.queue[job.index] in b.base.queue;
      ConsumeStaysIssued(onePost, b.base, job.event, [job.readers[job.done]]);
    case Finish =>
      assert forall e | e in Moved(onePost, b, Finish).base.queue :: e in b.base.queue;
    case _ =>
  }

  lemma MoveKeepsFollowed(onePost: bool, b: Busy, m: Move)
    requires CanMove(b, m) && JobSound(b) && Undisturbed(onePost, b, m)
    requires AuthorsFollowed(b.base) && StillReaders(onePost, b)
    ensures AuthorsFollowed(Moved(onePost, b, m).base) && StillReaders(onePost, Moved(onePost, b, m))
  {
    match m
    case Other(t) =>
      OtherKeepsReaders(onePost, b, t);
      StepKeepsFollowed(onePost, b.base, t);
    case Begin(i) =>
      var author := b.base.queue[i].post.author;
      forall u | u in Followers(b.base.friends, author) ensures author in Follows(b.base.friends, u) {
        FollowersAreReaders(b.base.friends, u, author);
      }
    case Reach =>
      var job := b.job.value;
      assert job.readers[job.done..] == [job.readers[job.done]] + job.readers[job.done + 1..];
      ReachBreaksIff(onePost, b);
    case _ =>
  }

  // ---- runs -------------------------------------------------------------------------------

  ghost predicate CanRun(onePost: bool, b: Busy, ms: seq<Move>)
    decreases |ms|
  {
    ms == [] || (CanMove(b, ms[0]) && CanRun(onePost, Moved(onePost, b, ms[0]), ms[1..]))
  }

  ghost function AfterMoves(onePost: bool, b: Busy, ms: seq<Move>): Busy
    requires CanRun(onePost, b, ms)
    decreases |ms|
  {
    if ms == [] then b else AfterMoves(onePost, Moved(onePost, b, ms[0]), ms[1..])
  }

  ghost predicate UndisturbedRun(onePost: bool, b: Busy, ms: seq<Move>)
    requires CanRun(onePost, b, ms)
    decreases |ms|
  {
    ms == [] || (Undisturbed(onePost, b, ms[0]) && UndisturbedRun(onePost, Moved(onePost, b, ms[0]), ms[1..]))
  }

  /** In both modes every entry is of an issued row, and every list has between 1 and FEED_LENGTH
      entries, one more in the default mode, whatever happens during the consumer's loop. */
  lemma {:induction false} IssuedAfterEveryRun(onePost: bool, b: Busy, ms: seq<Move>)
    requires CanRun(onePost, b, ms) && JobSound(b) && TablesSound(b.base)
    requires EntriesIssued(b.base) && ListsBounded(onePost, b.base)
    ensures var z := AfterMoves(onePost, b, ms).base; EntriesIssued(z) && ListsBounded(onePost, z)
    decreases |ms|
  {
    if ms == [] {
    } else {
      MoveKeepsIssued(onePost, b, ms[0]);
      IssuedAfterEveryRun(onePost, Moved(onePost, b, ms[0]), ms[1..]);
    }
  }

  /** Every cached post is by an author followed now, after every run in which nobody leaves the
      author of a post that the consumer is about to push onto that reader's list. */
  lemma {:induction false} FollowedAfterEveryRun(onePost: bool, b: Busy, ms: seq<Move>)
    requires CanRun(onePost, b, ms) && UndisturbedRun(onePost, b, ms) && JobSound(b)
    requires AuthorsFollowed(b.base) && StillReaders(onePost, b)
    ensures AuthorsFollowed(AfterMoves(onePost, b, ms).base)
    decreases |ms|
  {
    if ms == [] {
    } else {
      MoveKeepsJob(onePost, b, ms[0]);
      MoveKeepsFollowed(onePost, b, ms[0]);
      FollowedAfterEveryRun(onePost, Moved(onePost, b, ms[0]), ms[1..]);
    }
  }

  lemma MoveKeepsJob(onePost: bool, b: Busy, m: Move)
    requires CanMove(b, m) && JobSound(b)
    ensures JobSound(Moved(onePost, b, m))
  {
    if m.Other? { OtherKeepsJob(onePost, b, m.t); }
  }

  // ---- the loop without interference ------------------------------------------------------------

  lemma MoveThenRun(onePost: bool, b: Busy, m: Move, ms: seq<Move>)
    requires CanMove(b, m) && CanRun(onePost, Moved(onePost, b, m), ms)
    ensures CanRun(onePost, b, [m] + ms)
    ensures AfterMoves(onePost, b, [m] + ms) == AfterMoves(onePost, Moved(onePost, b, m), ms)
    ensures UndisturbedRun(onePost, b, [m] + ms)
       <==> Undisturbed(onePost, b, m) && UndisturbedRun(onePost, Moved(onePost, b, m), ms)
  {
    assert ([m] + ms)[1..] == ms;
  }

  /** The rest of the loop and the acknowledgement. */
  function Rest(n: nat): seq<Move> {
    if n == 0 then [Finish] else [Reach] + Rest(n - 1)
  }

  ghost function Done(onePost: bool, b: Busy): Busy
    requires JobSound(b) && b.job.Some?
  {
    var job := b.job.value;
    Busy(b.base.(cache := Consumed(onePost, b.base.cache, job.event, ToReach(job)),
                 queue := Removed(b.base.queue, job.index)), None)
  }

  lemma {:induction false} ConsumedFromFirst(onePost: bool, cache: Lists, e: Event, first: Uuid, rest: seq<Uuid>)
    ensures Consumed(onePost, Consumed(onePost, cache, e, [first]), e, rest)
         == Consumed(onePost, cache, e, [first] + rest)
    decreases |rest|
  {
    var all := [first] + rest;
    if !Pushes(onePost, e) {
      assert (set u | u in all) == {first} + (set u | u in rest);
      assert (set u | u in [first]) == {first};
    } else if rest == [] {
      assert all == [first];
    } else {
      ConsumedFromFirst(onePost, cache, e, first, rest[..|rest| - 1]);
      assert all[..|all| - 1] == [first] + rest[..|rest| - 1];
    }
  }

  lemma {:induction false} LoopFinishes(onePost: bool, b: Busy)
    requires JobSound(b) && b.job.Some?
    ensures var ms := Rest(|b.job.value.readers| - b.job.value.done);
            CanRun(onePost, b, ms) && AfterMoves(onePost, b, ms) == Done(onePost, b)
            && UndisturbedRun(onePost, b, ms)
    decreases |b.job.value.readers| - b.job.value.done
  {
    var job := b.job.value;
    if job.done == |job.readers| {
      assert Consumed(onePost, b.base.cache, job.event, []) == b.base.cache;
      MoveThenRun(onePost, b, Finish, []);
    } else {
      var b' := Moved(onePost, b, Reach);
      ConsumedFromFirst(onePost, b.base.cache, job.event, job.readers[job.done], job.readers[job.done + 1..]);
      assert job.readers[job.done..] == [job.readers[job.done]] + job.readers[job.done + 1..];
      LoopFinishes(onePost, b');
      MoveThenRun(onePost, b, Reach, Rest(|job.readers| - job.done - 1));
    }
  }

  function Handling(b: Busy, i: nat): seq<Move>
    requires i < |b.base.queue|
  {
    [Begin(i)] + Rest(|Followers(b.base.friends, b.base.queue[i].post.author)|)
  }

  /** A consumer that nobody disturbs takes the model's step. */
  lemma UndisturbedJobIsDelivery(onePost: bool, b: Busy, i: nat)
    requires CanMove(b, Begin(i))
    ensures CanRun(onePost, b, Handling(b, i)) && UndisturbedRun(onePost, b, Handling(b, i))
    ensures AfterMoves(onePost, b, Handling(b, i)) == Busy(Next(onePost, b.base, Deliver(i, true)), None)
  {
    var b' := Moved(onePost, b, Begin(i));
    LoopFinishes(onePost, b');
    assert ToReach(b'.job.value) == Followers(b.base.friends, b.base.queue[i].post.author);
    MoveThenRun(onePost, b, Begin(i), Rest(|b'.job.value.readers|));
  }

  /** Reaches n more readers and stops. */
  function Part(n: nat): seq<Move> {
    if n == 0 then [Abandon] else [Reach] + Part(n - 1)
  }

  /** The job with the lists done up to a position, and stopped. */
  ghost function Stopped(onePost: bool, b: Busy, upTo: nat): Busy
    requires b.job.Some? && b.job.value.done <= upTo <= |b.job.value.readers|
  {
    var job := b.job.value;
    Busy(b.base.(cache := Consumed(onePost, b.base.cache, job.event, job.readers[job.done..upTo])), None)
  }

  lemma StoppedFromNext(onePost: bool, b: Busy, upTo: nat)
    requires b.job.Some? && b.job.value.done < upTo <= |b.job.value.readers|
    ensures Stopped(onePost, Moved(onePost, b, Reach), upTo) == Stopped(onePost, b, upTo)
  {
    var job := b.job.value;
    PartFromFirst(onePost, b.base.cache, job.event, job.readers, job.done, upTo);
  }

  lemma PartFromFirst(onePost: bool, cache: Lists, e: Event, readers: seq<Uuid>, from: nat, upTo: nat)
    requires from < upTo <= |readers|
    ensures Consumed(onePost, Consumed(onePost, cache, e, [readers[from]]), e, readers[from + 1..upTo])
         == Consumed(onePost, cache, e, readers[from..upTo])
  {
    assert readers[from..upTo] == [readers[from]] + readers[from + 1..upTo];
    ConsumedFromFirst(onePost, cache, e, readers[from], readers[from + 1..upTo]);
  }

  lemma StoppedAtOnce(onePost: bool, b: Busy)
    requires b.job.Some? && b.job.value.done <= |b.job.value.readers|
    ensures Stopped(onePost, b, b.job.value.done) == Moved(onePost, b, Abandon)
  {
    assert Consumed(onePost, b.base.cache, b.job.value.event, []) == b.base.cache;
  }

  lemma {:induction false} LoopStops(onePost: bool, b: Busy, upTo: nat)
    requires b.job.Some? && b.job.value.done <= upTo <= |b.job.value.readers|
    ensures var ms := Part(upTo - b.job.value.done);
            && CanRun(onePost, b, ms) && UndisturbedRun(onePost, b, ms)
            && AfterMoves(onePost, b, ms) == Stopped(onePost, b, upTo)
    decreases upTo - b.job.value.done
  {
    if upTo == b.job.value.done {
      StoppedAtOnce(onePost, b);
      MoveThenRun(onePost, b, Abandon, []);
    } else {
      StoppedFromNext(onePost, b, upTo);
      LoopStops(onePost, Moved(onePost, b, Reach), upTo);
      MoveThenRun(onePost, b, Reach, Part(upTo - b.job.value.done - 1));
    }
  }

  /** A consumer that reaches n readers and stops takes the model's partial step. */
  lemma StoppedJobIsPartialDelivery(onePost: bool, s: State, i: nat, n: nat)
    requires i < |s.queue| && n <= |Followers(s.friends, s.queue[i].post.author)|
    ensures var b, ms := Busy(s, None), [Begin(i)] + Part(n);
            && CanRun(onePost, b, ms) && UndisturbedRun(onePost, b, ms) && Enabled(s, DeliverPart(i, n))
            && AfterMoves(onePost, b, ms) == Busy(Next(onePost, s, DeliverPart(i, n)), None)
  {
    var b := Busy(s, None);
    var readers := Followers(s.friends, s.queue[i].post.author);
    assert readers[0..n] == readers[..n];
    LoopStops(onePost, Moved(onePost, b, Begin(i)), n);
    MoveThenRun(onePost, b, Begin(i), Part(n));
  }

  /** Every step of the coarse model, in both modes, is an undisturbed run of these moves. */
  lemma StepIsMoves(onePost: bool, s: State, t: Step) returns (ms: seq<Move>)
    requires Enabled(s, t)
    ensures CanRun(onePost, Busy(s, None), ms) && UndisturbedRun(onePost, Busy(s, None), ms)
    ensures AfterMoves(onePost, Busy(s, None), ms) == Busy(Next(onePost, s, t), None)
  {
    var b := Busy(s, None);
    match t
    case Deliver(i, acked) =>
      var readers := Followers(s.friends, s.queue[i].post.author);
      assert readers[..|readers|] == readers;
      if acked {
        UndisturbedJobIsDelivery(onePost, b, i);
        ms := Handling(b, i);
      } else {
        StoppedJobIsPartialDelivery(onePost, s, i, |readers|);
        ms := [Begin(i)] + Part(|readers|);
      }
    case DeliverPart(i, reached) =>
      StoppedJobIsPartialDelivery(onePost, s, i, reached);
      ms := [Begin(i)] + Part(reached);
    case _ =>
      MoveThenRun(onePost, b, Other(t), []);
      ms := [Other(t)];
  }

  lemma {:induction false} MovesCompose(onePost: bool, b: Busy, one: seq<Move>, two: seq<Move>)
    requires CanRun(onePost, b, one) && CanRun(onePost, AfterMoves(onePost, b, one), two)
    ensures CanRun(onePost, b, one + two)
    ensures AfterMoves(onePost, b, one + two) == AfterMoves(onePost, AfterMoves(onePost, b, one), two)
    decreases |one|
  {
    if one == [] {
      assert one + two == two;
    } else {
      var next, rest := Moved(onePost, b, one[0]), one[1..];
      MovesCompose(onePost, next, rest, two);
      assert one + two == [one[0]] + (rest + two);
      MoveThenRun(onePost, b, one[0], rest + two);
    }
  }

  lemma {:induction false} UndisturbedCompose(onePost: bool, b: Busy, one: seq<Move>, two: seq<Move>)
    requires CanRun(onePost, b, one) && CanRun(onePost, AfterMoves(onePost, b, one), two)
    requires CanRun(onePost, b, one + two)
    ensures UndisturbedRun(onePost, b, one + two)
       <==> UndisturbedRun(onePost, b, one) && UndisturbedRun(onePost, AfterMoves(onePost, b, one), two)
    decreases |one|
  {
    if one == [] {
      assert one + two == two;
    } else {
      assert (one + two)[1..] == one[1..] + two;
      UndisturbedCompose(onePost, Moved(onePost, b, one[0]), one[1..], two);
    }
  }

  /** So is every run. */
  lemma {:induction false} RunIsMoves(onePost: bool, s: State, ts: seq<Step>) returns (ms: seq<Move>)
    requires IsRun(onePost, s, ts)
    ensures CanRun(onePost, Busy(s, None), ms) && UndisturbedRun(onePost, Busy(s, None), ms)
    ensures AfterMoves(onePost, Busy(s, None), ms) == Busy(After(onePost, s, ts), None)
    decreases |ts|
  {
    if ts == [] {
      ms := [];
    } else {
      var first := StepIsMoves(onePost, s, ts[0]);
      var rest := RunIsMoves(onePost, Next(onePost, s, ts[0]), ts[1..]);
      MovesCompose(onePost, Busy(s, None), first, rest);
      UndisturbedCompose(onePost, Busy(s, None), first, rest);
      ms := first + rest;
    }
  }

  // ---- a reader who leaves between the lookup and the push --------------------------------------

  /** The reader is looked up, leaves the author, and gets the post all the same. */
  function LeftTooLate(b: Busy, user: Uuid): seq<Move>
    requires b.base.queue != []
  {
    var author := b.base.queue[0].post.author;
    [Begin(0)] + ([Other(FriendDelete(user, author))] + Rest(|Followers(b.base.friends, author)|))
  }

  /** In the default mode a reader who leaves the author between the lookup and the push ends
      with that author's post alone in the list, and with an empty queue. */
  lemma LeftAuthorIsShown(b: Busy, user: Uuid)
    requires b.job.None? && |b.base.queue| == 1 && b.base.queue[0].kind.CREATED? && UniquePairs(b.base.friends)
    requires b.base.queue[0].post.author in Follows(b.base.friends, user)
    ensures var e := b.base.queue[0];
            var ms := LeftTooLate(b, user);
            && CanRun(false, b, ms) && !UndisturbedRun(false, b, ms)
            && var z := AfterMoves(false, b, ms).base;
               && z.queue == [] && user in z.cache && z.cache[user] == [Entry(e.post, e.postId)]
               && e.post.author !in Follows(z.friends, user)
  {
    var e := b.base.queue[0];
    var author := e.post.author;
    var readers := Followers(b.base.friends, author);
    var b1 := Moved(false, b, Begin(0));
    var b2 := Moved(false, b1, Other(FriendDelete(user, author)));
    FollowersAreReaders(b.base.friends, user, author);
    FollowersCountPairs(b.base.friends, user, author);
    assert user in multiset(readers) && |PairRows(b.base.friends, user, author)| <= 1;
    assert ToReach(b1.job.value) == readers;
    PushedAllOnce(b2.base.cache, readers, Entry(e.post, e.postId), user);
    assert [Entry(e.post, e.postId)] + [] == [Entry(e.post, e.postId)];
    LoopFinishes(false, b2);
    MoveThenRun(false, b1, Other(FriendDelete(user, author)), Rest(|readers|));
    MoveThenRun(false, b, Begin(0), [Other(FriendDelete(user, author))] + Rest(|readers|));
  }
}
