/** Sends, concurrent mark-as-read runs and crashes, interleaved request by request and, inside
    the `dialogs` service, insertion by insertion. */
module MessageRuns {
  import opened Options
  import opened Posts
  import opened MarkAsRead

  datatype Job =
      // The batch was fetched; `next` messages of it are inserted.
    | Sending(ids: seq<Uuid>, batch: seq<Message>, next: nat)
      // The `dialogs` service has answered.
    | Sent(ids: seq<Uuid>, ok: bool)

  /** `accepted` is a history variable: every message the `unread` service ever stored. */
  datatype State = State(
    unread: seq<Message>,
    dialogs: Dialogs,
    jobs: map<nat, Job>,
    accepted: set<Message>)

  datatype Step =
    | Accept(m: Message)
    | Fetch(job: nat, ids: seq<Uuid>)
    | Insert(job: nat, answered: bool)
    | Answer(job: nat)
    | Remove(job: nat)
    | Crash(job: nat)

  /** The identifier is neither in use nor already named by a request under way. */
  ghost predicate FreshId(s: State, id: Uuid) {
    && (forall m | m in s.accepted :: m.id != id)
    && (forall j | j in s.jobs :: id !in s.jobs[j].ids)
  }

  ghost predicate Enabled(s: State, t: Step) {
    match t
    case Accept(m) => FreshId(s, m.id)
    case Fetch(j, _) => j !in s.jobs
    case Insert(j, _) => j in s.jobs && s.jobs[j].Sending? && s.jobs[j].next < |s.jobs[j].batch|
    case Answer(j) => j in s.jobs && s.jobs[j].Sending? && s.jobs[j].next == |s.jobs[j].batch|
    case Remove(j) => j in s.jobs && s.jobs[j].Sent?
    case Crash(j) => j in s.jobs
  }

  function Next(s: State, t: Step): State
    requires Enabled(s, t)
  {
    match t
    case Accept(m) => s.(unread := s.unread + [m], accepted := s.accepted + {m})
    case Fetch(j, ids) => s.(jobs := s.jobs[j := Sending(ids, WithIds(s.unread, ids), 0)])
    case Insert(j, answered) =>
      var job := s.jobs[j];
      var m := job.batch[job.next];
      if answered && m.id !in s.dialogs then
        s.(dialogs := s.dialogs[m.id := m], jobs := s.jobs[j := job.(next := job.next + 1)])
      else
        s.(jobs := s.jobs[j := Sent(job.ids, false)])
    case Answer(j) => s.(jobs := s.jobs[j := Sent(s.jobs[j].ids, true)])
    case Remove(j) =>
      s.(unread := WithoutIds(s.unread, s.jobs[j].ids), jobs := s.jobs - {j})
    case Crash(j) => s.(jobs := s.jobs - {j})
  }

  /** The discipline the code announces and does not keep: remove only after an OK send. */
  ghost predicate RemovesAfterOk(s: State, t: Step) {
    t.Remove? && t.job in s.jobs && s.jobs[t.job].Sent? ==> s.jobs[t.job].ok
  }

  // ---- no message is lost -----------------------------------------------------------------

  ghost predicate NoLoss(s: State) {
    forall m | m in s.accepted :: m in s.unread || Holds(s.dialogs, m)
  }

  ghost predicate AcceptedUnique(s: State) {
    forall m, n | m in s.accepted && n in s.accepted && m.id == n.id :: m == n
  }

  ghost predicate StoresAccepted(s: State) {
    && (forall m | m in s.unread :: m in s.accepted)
    && (forall k | k in s.dialogs :: s.dialogs[k] in s.accepted && s.dialogs[k].id == k)
  }

  /** A job under way has inserted what it counts, and has fetched all there is to move; an OK
      send means that all there is to remove is in `dialogs`. */
  ghost predicate JobSound(s: State, job: Job) {
    match job
    case Sending(ids, batch, next) =>
      && next <= |batch|
      && (forall m | m in batch :: m in s.accepted)
      && (forall i | 0 <= i < next :: Holds(s.dialogs, batch[i]))
      && (forall m | m in s.unread && m.id in ids :: m in batch)
    case Sent(ids, ok) =>
      ok ==> forall m | m in s.unread && m.id in ids :: Holds(s.dialogs, m)
  }

  ghost predicate Sound(s: State) {
    && NoLoss(s) && AcceptedUnique(s) && StoresAccepted(s)
    && (forall j | j in s.jobs :: JobSound(s, s.jobs[j]))
  }

  lemma AcceptKeepsSound(s: State, m: Message)
    requires Enabled(s, Accept(m)) && Sound(s)
    ensures Sound(Next(s, Accept(m)))
  {
    var s' := Next(s, Accept(m));
    forall x | x in s'.accepted ensures x in s'.unread || Holds(s'.dialogs, x) {
      assert x == m ==> s'.unread[|s.unread|] == m;
    }
    forall j | j in s'.jobs ensures JobSound(s', s'.jobs[j]) {
      assert JobSound(s, s.jobs[j]) && m.id !in s.jobs[j].ids;
    }
  }

  lemma InsertKeepsSound(s: State, t: Step)
    requires t.Insert? && Enabled(s, t) && Sound(s)
    ensures Sound(Next(s, t))
  {
    var s' := Next(s, t);
    var job := s.jobs[t.job];
    var m := job.batch[job.next];
    assert JobSound(s, job) && m in job.batch;
    forall x | Holds(s.dialogs, x) ensures Holds(s'.dialogs, x) { }
    forall j | j in s'.jobs ensures JobSound(s', s'.jobs[j]) {
      assert JobSound(s, s.jobs[j]);
    }
  }

  lemma AnswerKeepsSound(s: State, j: nat)
    requires Enabled(s, Answer(j)) && Sound(s)
    ensures Sound(Next(s, Answer(j)))
  {
    var s' := Next(s, Answer(j));
    assert JobSound(s, s.jobs[j]);
    forall k | k in s'.jobs ensures JobSound(s', s'.jobs[k]) {
      assert JobSound(s, s.jobs[k]);
    }
  }

  lemma RemoveKeepsSound(s: State, j: nat)
    requires Enabled(s, Remove(j)) && s.jobs[j].ok && Sound(s)
    ensures Sound(Next(s, Remove(j)))
  {
    var s' := Next(s, Remove(j));
    assert JobSound(s, s.jobs[j]);
    forall k | k in s'.jobs ensures JobSound(s', s'.jobs[k]) {
      assert JobSound(s, s.jobs[k]);
    }
  }

  lemma StepKeepsSound(s: State, t: Step)
    requires Enabled(s, t) && RemovesAfterOk(s, t) && Sound(s)
    ensures Sound(Next(s, t))
  {
    match t
    case Accept(m) => AcceptKeepsSound(s, m);
    case Insert(_, _) => InsertKeepsSound(s, t);
    case Answer(j) => AnswerKeepsSound(s, j);
    case Remove(j) => RemoveKeepsSound(s, j);
    case Fetch(j, ids) =>
      var s' := Next(s, t);
      forall k | k in s'.jobs ensures JobSound(s', s'.jobs[k]) {
        assert k != j ==> JobSound(s, s.jobs[k]);
      }
    case Crash(j) =>
      var s' := Next(s, t);
      forall k | k in s'.jobs ensures JobSound(s', s'.jobs[k]) {
        assert JobSound(s, s.jobs[k]);
      }
  }

  ghost predicate IsRun(s: State, ts: seq<Step>)
    decreases |ts|
  {
    ts == [] || (Enabled(s, ts[0]) && IsRun(Next(s, ts[0]), ts[1..]))
  }

  ghost predicate Disciplined(s: State, ts: seq<Step>)
    requires IsRun(s, ts)
    decreases |ts|
  {
    ts == [] || (RemovesAfterOk(s, ts[0]) && Disciplined(Next(s, ts[0]), ts[1..]))
  }

  function After(s: State, ts: seq<Step>): State
    requires IsRun(s, ts)
    decreases |ts|
  {
    if ts == [] then s else After(Next(s, ts[0]), ts[1..])
  }

  lemma {:induction false} SoundAfterEveryRun(s: State, ts: seq<Step>)
    requires IsRun(s, ts) && Disciplined(s, ts) && Sound(s)
    ensures Sound(After(s, ts))
    decreases |ts|
  {
    if ts == [] {
    } else {
      StepKeepsSound(s, ts[0]);
      SoundAfterEveryRun(Next(s, ts[0]), ts[1..]);
    }
  }

  lemma {:induction false} AcceptedGrows(s: State, ts: seq<Step>)
    requires IsRun(s, ts)
    ensures s.accepted <= After(s, ts).accepted
    decreases |ts|
  {
    if ts == [] {
    } else {
      AcceptedGrows(Next(s, ts[0]), ts[1..]);
    }
  }

  const START: State := State([], map[], map[], {})

  /** However sends, crashes and concurrent runs interleave, as long as removals follow OK sends:
      a message once accepted is in one of the stores for ever, with all its fields. */
  lemma NoMessageIsLost(before: seq<Step>, m: Message, after: seq<Step>)
    requires IsRun(START, before) && Disciplined(START, before)
    requires m in After(START, before).accepted
    requires IsRun(After(START, before), after) && Disciplined(After(START, before), after)
    ensures var z := After(After(START, before), after);
            m in z.unread || Holds(z.dialogs, m)
  {
    SoundAfterEveryRun(START, before);
    var mid := After(START, before);
    SoundAfterEveryRun(mid, after);
    AcceptedGrows(mid, after);
  }

  /** Without the discipline one removal loses a message exactly when it takes one that
      `dialogs` does not hold. */
  lemma UndisciplinedRemoveIff(s: State, j: nat)
    requires Sound(s) && Enabled(s, Remove(j))
    ensures NoLoss(Next(s, Remove(j)))
       <==> forall m | m in s.unread && m.id in s.jobs[j].ids :: Holds(s.dialogs, m)
  {
    var s' := Next(s, Remove(j));
    if NoLoss(s') {
      forall m | m in s.unread && m.id in s.jobs[j].ids ensures Holds(s.dialogs, m) {
        assert m in s'.accepted && m !in s'.unread;
      }
    }
  }

  /** The code's own order of steps, from the start: one message, an insertion the database does
      not answer, and the removal that follows regardless. */
  lemma IgnoredFailureLoses(m: Message)
    ensures var ts := [Accept(m), Fetch(0, [m.id]), Insert(0, false), Remove(0)];
            IsRun(START, ts) && m in After(START, ts).accepted && !NoLoss(After(START, ts))
  {
    var s1 := Next(START, Accept(m));
    var s2 := Next(s1, Fetch(0, [m.id]));
    assert m in WithIds(s1.unread, [m.id]);
    var s3 := Next(s2, Insert(0, false));
    var s4 := Next(s3, Remove(0));
    assert m !in s4.unread;
    RunOfFour(START, Accept(m), Fetch(0, [m.id]), Insert(0, false), Remove(0));
  }

  /** The freshness of identifiers is needed too: a removal names identifiers, not the messages
      that were fetched, and takes a message that came under such an identifier in between. */
  lemma PrematureIdentifierLoses(m: Message)
    ensures var s := Next(Next(START, Fetch(0, [m.id])), Answer(0));
            && !FreshId(s, m.id)
            && var arrived := s.(unread := s.unread + [m], accepted := s.accepted + {m});
               RemovesAfterOk(arrived, Remove(0)) && !NoLoss(Next(arrived, Remove(0)))
  {
    var s := Next(Next(START, Fetch(0, [m.id])), Answer(0));
    assert 0 in s.jobs && m.id in s.jobs[0].ids;
    var arrived := s.(unread := s.unread + [m], accepted := s.accepted + {m});
    assert m in Next(arrived, Remove(0)).accepted && m !in Next(arrived, Remove(0)).unread;
  }

  lemma RunOfOneMore(s: State, t: Step, ts: seq<Step>)
    requires Enabled(s, t) && IsRun(Next(s, t), ts)
    ensures IsRun(s, [t] + ts) && After(s, [t] + ts) == After(Next(s, t), ts)
  {
    assert ([t] + ts)[1..] == ts;
  }

  lemma RunOfFour(s: State, a: Step, b: Step, c: Step, d: Step)
    requires Enabled(s, a) && Enabled(Next(s, a), b)
    requires Enabled(Next(Next(s, a), b), c) && Enabled(Next(Next(Next(s, a), b), c), d)
    ensures IsRun(s, [a, b, c, d])
    ensures After(s, [a, b, c, d]) == Next(Next(Next(Next(s, a), b), c), d)
  {
    var s1 := Next(s, a);
    var s2 := Next(s1, b);
    var s3 := Next(s2, c);
    RunOfOneMore(s3, d, []);
    RunOfOneMore(s2, c, [d] + []);
    RunOfOneMore(s1, b, [c] + ([d] + []));
    RunOfOneMore(s, a, [b] + ([c] + ([d] + [])));
    assert [a, b, c, d] == [a] + ([b] + ([c] + ([d] + [])));
  }

  function InsertAndCrash(first: Message, second: Message): seq<Step> {
    [Accept(first), Accept(second), Fetch(0, [first.id, second.id]), Insert(0, true), Crash(0)]
  }

  /** The first message is in `dialogs`, both are in `unread`, and nothing is under way. */
  lemma CrashLeavesHalf(first: Message, second: Message)
    requires first.id != second.id
    ensures IsRun(START, InsertAndCrash(first, second))
    ensures After(START, InsertAndCrash(first, second))
         == State([first, second], map[first.id := first], map[], {first, second})
  {
    var ids := [first.id, second.id];
    var s1 := Next(START, Accept(first));
    var s2 := Next(s1, Accept(second));
    assert s2.unread == [first, second];
    BothSelected(first, second);
    var s3 := Next(s2, Fetch(0, ids));
    var s4 := Next(s3, Insert(0, true));
    RunOfOneMore(s4, Crash(0), []);
    RunOfOneMore(s3, Insert(0, true), [Crash(0)]);
    RunOfOneMore(s2, Fetch(0, ids), [Insert(0, true), Crash(0)]);
    RunOfOneMore(s1, Accept(second), [Fetch(0, ids), Insert(0, true), Crash(0)]);
    RunOfOneMore(START, Accept(first), [Accept(second), Fetch(0, ids), Insert(0, true), Crash(0)]);
  }

  lemma BothSelected(first: Message, second: Message)
    ensures WithIds([first, second], [first.id, second.id]) == [first, second]
    ensures WithoutIds([first, second], [first.id, second.id]) == []
  {
    assert [first, second][1..] == [second] && [second][1..] == [];
  }

  /** A request that crashes after its first insertion, and the retry: it meets its own row, stops,
      and removes both messages. The second is lost. */
  lemma RetryAfterCrashLoses(first: Message, second: Message)
    requires first.id != second.id
    ensures IsRun(START, InsertAndCrash(first, second))
    ensures var s := After(START, InsertAndCrash(first, second));
            var retry := [Fetch(0, [first.id, second.id]), Insert(0, true), Remove(0)];
            && NoLoss(s) && IsRun(s, retry)
            && second in After(s, retry).accepted && second !in After(s, retry).unread
            && !Holds(After(s, retry).dialogs, second)
  {
    CrashLeavesHalf(first, second);
    BothSelected(first, second);
    var s := After(START, InsertAndCrash(first, second));
    var ids := [first.id, second.id];
    var s1 := Next(s, Fetch(0, ids));
    var s2 := Next(s1, Insert(0, true));
    RunOfOneMore(s2, Remove(0), []);
    RunOfOneMore(s1, Insert(0, true), [Remove(0)]);
    RunOfOneMore(s, Fetch(0, ids), [Insert(0, true), Remove(0)]);
  }

  // ---- a run without interference -----------------------------------------------------------

  /** Lets one job take its remaining steps, with no other step in between. */
  ghost function Driven(s: State, j: nat, answers: nat -> bool): State
    requires j in s.jobs
    decreases match s.jobs[j] case Sending(_, batch, next) => |batch| - next + 1 case Sent(_, _) => 0
  {
    match s.jobs[j]
    case Sent(_, _) => Next(s, Remove(j))
    case Sending(_, batch, next) =>
      if next < |batch| then Driven(Next(s, Insert(j, answers(next))), j, answers)
      else if next == |batch| then Driven(Next(s, Answer(j)), j, answers)
      else s
  }

  /** The loop has stopped: the service answers, and the removal follows. */
  lemma DrivenFromStop(s: State, j: nat, answers: nat -> bool, dialogs: Dialogs)
    requires j in s.jobs && s.jobs[j].Sending?
    requires s.dialogs == InsertedAll(dialogs, s.jobs[j].batch[..Min(s.jobs[j].next, |s.jobs[j].batch|)])
    requires StopsAfter(dialogs, s.jobs[j].batch, answers, s.jobs[j].next)
    ensures Driven(s, j, answers)
         == State(WithoutIds(s.unread, s.jobs[j].ids), s.dialogs, s.jobs - {j}, s.accepted)
  {
    var job := s.jobs[j];
    var t := if job.next < |job.batch| then Insert(j, answers(job.next)) else Answer(j);
    var s' := Next(s, t);
    assert s'.jobs[j].Sent? && s'.jobs[j].ids == job.ids;
    assert s'.jobs - {j} == s.jobs - {j};
    assert Driven(s, j, answers) == Driven(s', j, answers) == Next(s', Remove(j));
  }

  lemma {:induction false} DrivenFrom(s: State, j: nat, answers: nat -> bool, dialogs: Dialogs, n: nat)
    requires j in s.jobs && s.jobs[j].Sending? && s.jobs[j].next <= n
    requires StopsAfter(dialogs, s.jobs[j].batch, answers, n)
    requires s.dialogs == InsertedAll(dialogs, s.jobs[j].batch[..s.jobs[j].next])
    ensures Driven(s, j, answers)
         == State(WithoutIds(s.unread, s.jobs[j].ids), InsertedAll(dialogs, s.jobs[j].batch[..n]),
                  s.jobs - {j}, s.accepted)
    decreases n - s.jobs[j].next
  {
    var batch, next := s.jobs[j].batch, s.jobs[j].next;
    if next < n {
      assert Accepts(dialogs, batch, answers, next);
      assert batch[..next + 1][..next] == batch[..next];
      var s' := Next(s, Insert(j, answers(next)));
      assert s'.jobs - {j} == s.jobs - {j};
      assert Driven(s, j, answers) == Driven(s', j, answers);
      DrivenFrom(s', j, answers, dialogs, n);
    } else {
      DrivenFromStop(s, j, answers, dialogs);
    }
  }

  /** Undisturbed, the steps of a job do what the handler does in one go: the results are those
      that `DialogMarkAsRead` promises. */
  lemma UndisturbedJobIsHandler(s: State, j: nat, ids: seq<Uuid>, answers: nat -> bool, n: nat)
    requires j !in s.jobs && StopsAfter(s.dialogs, WithIds(s.unread, ids), answers, n)
    ensures Driven(Next(s, Fetch(j, ids)), j, answers)
         == State(WithoutIds(s.unread, ids), InsertedAll(s.dialogs, WithIds(s.unread, ids)[..n]), s.jobs, s.accepted)
  {
    var batch := WithIds(s.unread, ids);
    var s' := Next(s, Fetch(j, ids));
    assert s'.jobs[j] == Sending(ids, batch, 0);
    assert InsertedAll(s.dialogs, batch[..0]) == s.dialogs;
    assert s'.jobs - {j} == s.jobs;
    DrivenFrom(s', j, answers, s.dialogs, n);
  }
}
