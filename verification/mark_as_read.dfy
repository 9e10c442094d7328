/** Marking messages as read: fetch them from the `unread` service, insert them one by one into
    the `dialogs` service, remove them from `unread`. The stores share no transaction. */
module MarkAsRead {
  import opened Posts

  datatype Message = Message(id: Uuid, sender: Uuid, receiver: Uuid, content: string)

  /** The `dialogs` table has the message identifier as its primary key. */
  type Dialogs = map<Uuid, Message>

  ghost predicate Holds(dialogs: Dialogs, m: Message) {
    m.id in dialogs && dialogs[m.id] == m
  }

  ghost predicate UniqueMessageIds(s: seq<Message>) {
    forall i, j | 0 <= i < j < |s| :: s[i].id != s[j].id
  }

  /** `WHERE id = ANY($1)` */
  function WithIds(rows: seq<Message>, ids: seq<Uuid>): (r: seq<Message>)
    ensures forall m :: m in r <==> m in rows && m.id in ids
    ensures |r| <= |rows|
  {
    if rows == [] then []
    else
      assert rows == [rows[0]] + rows[1..];
      (if rows[0].id in ids then [rows[0]] else []) + WithIds(rows[1..], ids)
  }

  function WithoutIds(rows: seq<Message>, ids: seq<Uuid>): (r: seq<Message>)
    ensures forall m :: m in r <==> m in rows && m.id !in ids
    ensures |r| == |rows| - |WithIds(rows, ids)|
  {
    if rows == [] then []
    else
      assert rows == [rows[0]] + rows[1..];
      (if rows[0].id in ids then [] else [rows[0]]) + WithoutIds(rows[1..], ids)
  }

  lemma {:induction false} WithIdsUnique(rows: seq<Message>, ids: seq<Uuid>)
    requires UniqueMessageIds(rows)
    ensures UniqueMessageIds(WithIds(rows, ids))
  {
    if rows == [] {
    } else {
      WithIdsUnique(rows[1..], ids);
      forall m | m in WithIds(rows[1..], ids) ensures m.id != rows[0].id {
        assert m in rows[1..];
        var i :| 0 <= i < |rows[1..]| && rows[1..][i] == m;
        assert rows[i + 1].id != rows[0].id;
      }
    }
  }

  /** Selecting and removing by identifier keep every message as often as it was there. */
  lemma {:induction false} IdsSplitRows(rows: seq<Message>, ids: seq<Uuid>, m: Message)
    ensures multiset(WithIds(rows, ids))[m] == if m.id in ids then multiset(rows)[m] else 0
    ensures multiset(WithoutIds(rows, ids))[m] == if m.id in ids then 0 else multiset(rows)[m]
  {
    if rows == [] {
    } else {
      assert rows == [rows[0]] + rows[1..];
      IdsSplitRows(rows[1..], ids, m);
    }
  }

  lemma SameIdSameMessage(rows: seq<Message>, a: Message, b: Message)
    requires UniqueMessageIds(rows) && a in rows && b in rows && a.id == b.id
    ensures a == b
  {
    var i :| 0 <= i < |rows| && rows[i] == a;
    var j :| 0 <= j < |rows| && rows[j] == b;
    assert !(i < j) && !(j < i);
  }

  // ---- the insert loop --------------------------------------------------------------------

  function InsertedAll(dialogs: Dialogs, messages: seq<Message>): Dialogs {
    if messages == [] then dialogs
    else
      var last := messages[|messages| - 1];
      InsertedAll(dialogs, messages[..|messages| - 1])[last.id := last]
  }

  /** The insertion at position i goes through: the database answers, and no row has the key. */
  predicate Accepts(dialogs: Dialogs, messages: seq<Message>, answers: nat -> bool, i: nat)
    requires i < |messages|
  {
    answers(i) && messages[i].id !in InsertedAll(dialogs, messages[..i])
  }

  /** How many messages the loop inserts before it returns. */
  ghost predicate StopsAfter(dialogs: Dialogs, messages: seq<Message>, answers: nat -> bool, n: nat) {
    && n <= |messages|
    && (forall i | 0 <= i < n :: Accepts(dialogs, messages, answers, i))
    && (n < |messages| ==> !Accepts(dialogs, messages, answers, n))
  }

  lemma {:induction false} InsertedAllElsewhere(dialogs: Dialogs, messages: seq<Message>, k: Uuid)
    requires forall m | m in messages :: m.id != k
    ensures k in InsertedAll(dialogs, messages) <==> k in dialogs
    ensures k in dialogs ==> InsertedAll(dialogs, messages)[k] == dialogs[k]
  {
    if messages == [] {
    } else {
      assert messages[|messages| - 1] in messages;
      InsertedAllElsewhere(dialogs, messages[..|messages| - 1], k);
    }
  }

  lemma {:induction false} InsertedAllHolds(dialogs: Dialogs, messages: seq<Message>, m: Message)
    requires UniqueMessageIds(messages) && m in messages
    ensures Holds(InsertedAll(dialogs, messages), m)
  {
    var last, front := messages[|messages| - 1], messages[..|messages| - 1];
    if m != last {
      var i :| 0 <= i < |messages| && messages[i] == m;
      assert m == front[i] && messages[i].id != messages[|front|].id;
      InsertedAllHolds(dialogs, front, m);
    }
  }

  lemma {:induction false} InsertedAllSize(dialogs: Dialogs, messages: seq<Message>, answers: nat -> bool)
    requires forall i | 0 <= i < |messages| :: Accepts(dialogs, messages, answers, i)
    ensures |InsertedAll(dialogs, messages)| == |dialogs| + |messages|
  {
    if messages == [] {
    } else {
      var front := messages[..|messages| - 1];
      forall i | 0 <= i < |front| ensures Accepts(dialogs, front, answers, i) {
        assert Accepts(dialogs, messages, answers, i) && front[..i] == messages[..i];
      }
      InsertedAllSize(dialogs, front, answers);
      assert Accepts(dialogs, messages, answers, |front|);
      var before, last := InsertedAll(dialogs, front), messages[|front|];
      assert before[last.id := last].Keys == before.Keys + {last.id};
      assert |before.Keys| == |before| && |before[last.id := last].Keys| == |before[last.id := last]|;
    }
  }

  lemma {:induction false} InsertedAllKeys(dialogs: Dialogs, messages: seq<Message>, k: Uuid)
    ensures k in InsertedAll(dialogs, messages) <==> k in dialogs || exists m :: m in messages && m.id == k
  {
    if messages == [] {
    } else {
      var front := messages[..|messages| - 1];
      assert messages == front + [messages[|messages| - 1]];
      InsertedAllKeys(dialogs, front, k);
    }
  }

  /** The database answers, and neither an earlier message nor the table has the key. */
  ghost predicate NewAndAnswered(before: Dialogs, messages: seq<Message>, answers: nat -> bool, i: nat)
    requires i < |messages|
  {
    answers(i) && messages[i].id !in before && forall j | 0 <= j < i :: messages[j].id != messages[i].id
  }

  /** The insertions that go through are those of new keys that are answered, up to the first that
      is not; and of such a prefix every message is held afterwards beside those held before. */
  lemma StopsAtFirstFailure(dialogs: Dialogs, messages: seq<Message>, answers: nat -> bool, n: nat)
    requires StopsAfter(dialogs, messages, answers, n)
    ensures forall i | 0 <= i < n :: NewAndAnswered(dialogs, messages, answers, i)
    ensures n < |messages| ==> !NewAndAnswered(dialogs, messages, answers, n)
    ensures forall x :: Holds(InsertedAll(dialogs, messages[..n]), x) <==> Holds(dialogs, x) || x in messages[..n]
  {
    forall i | 0 <= i < |messages| && (i <= n)
      ensures Accepts(dialogs, messages, answers, i) <==> NewAndAnswered(dialogs, messages, answers, i)
    {
      InsertedAllKeys(dialogs, messages[..i], messages[i].id);
      assert forall j | 0 <= j < i :: messages[j] == messages[..i][j];
    }
    forall x ensures Holds(InsertedAll(dialogs, messages[..n]), x) <==> Holds(dialogs, x) || x in messages[..n] {
      PrefixIsHeld(dialogs, messages, answers, n, x);
    }
  }

  lemma {:induction false} PrefixIsHeld(dialogs: Dialogs, messages: seq<Message>, answers: nat -> bool, n: nat, x: Message)
    requires n <= |messages| && forall i | 0 <= i < n :: Accepts(dialogs, messages, answers, i)
    ensures Holds(InsertedAll(dialogs, messages[..n]), x) <==> Holds(dialogs, x) || x in messages[..n]
    decreases n
  {
    if n > 0 {
      PrefixIsHeld(dialogs, messages, answers, n - 1, x);
      assert Accepts(dialogs, messages, answers, n - 1);
      assert messages[..n][..n - 1] == messages[..n - 1];
      assert messages[..n] == messages[..n - 1] + [messages[n - 1]];
    }
  }

  // ---- the services -----------------------------------------------------------------------

  class UnreadService {
    var rows: seq<Message>

    constructor ()
      ensures rows == []
    {
      rows := [];
    }

    /** `dialog_send`: a new message, under a new identifier. */
    method Create(m: Message)
      modifies this
      ensures rows == old(rows) + [m]
    {
      rows := rows + [m];
    }

    method GetByIds(ids: seq<Uuid>) returns (messages: seq<Message>)
      ensures messages == WithIds(rows, ids)
      ensures forall m :: multiset(messages)[m] == if m.id in ids then multiset(rows)[m] else 0
    {
      forall m ensures multiset(WithIds(rows, ids))[m] == if m.id in ids then multiset(rows)[m] else 0 {
        IdsSplitRows(rows, ids, m);
      }
      messages := WithIds(rows, ids);
    }

    method RemoveByIds(ids: seq<Uuid>) returns (removed: nat)
      modifies this
      ensures rows == WithoutIds(old(rows), ids) && removed == |WithIds(old(rows), ids)|
      ensures forall m :: multiset(rows)[m] == if m.id in ids then 0 else multiset(old(rows))[m]
      ensures |rows| + removed == |old(rows)|
    {
      forall m ensures multiset(WithoutIds(rows, ids))[m] == if m.id in ids then 0 else multiset(rows)[m] {
        IdsSplitRows(rows, ids, m);
      }
      removed := |WithIds(rows, ids)|;
      rows := WithoutIds(rows, ids);
    }
  }

  class DialogsService {
    var rows: Dialogs

    constructor ()
      ensures rows == map[]
    {
      rows := map[];
    }

    /** The INSERT fails on an existing key, or when the database does not answer. */
    method Create(m: Message, answered: bool) returns (ok: bool)
      modifies this
      ensures ok <==> answered && m.id !in old(rows)
      ensures rows == if ok then old(rows)[m.id := m] else old(rows)
      ensures forall x :: Holds(rows, x) <==> Holds(old(rows), x) || (ok && x == m)
    {
      ok := answered && m.id !in rows;
      if ok {
        rows := rows[m.id := m];
      }
    }

    /** Inserts in order and returns at the first failure: the table ends as before plus a
        prefix of the batch, and the answer is OK exactly when the prefix is the whole batch. */
    method SendMessagesVec(messages: seq<Message>, answers: nat -> bool) returns (ok: bool, inserted: nat)
      modifies this
      ensures StopsAfter(old(rows), messages, answers, inserted)
      ensures rows == InsertedAll(old(rows), messages[..inserted])
      ensures ok <==> inserted == |messages|
      ensures forall i | 0 <= i < inserted :: NewAndAnswered(old(rows), messages, answers, i)
      ensures inserted < |messages| ==> !NewAndAnswered(old(rows), messages, answers, inserted)
      ensures forall x :: Holds(rows, x) <==> Holds(old(rows), x) || x in messages[..inserted]
    {
      inserted := 0;
      while inserted < |messages|
        invariant inserted <= |messages|
        invariant rows == InsertedAll(old(rows), messages[..inserted])
        invariant forall i | 0 <= i < inserted :: Accepts(old(rows), messages, answers, i)
      {
        var saved := Create(messages[inserted], answers(inserted));
        if !saved {
          StopsAtFirstFailure(old(rows), messages, answers, inserted);
          return false, inserted;
        }
        assert messages[..inserted + 1][..inserted] == messages[..inserted];
        inserted := inserted + 1;
      }
      ok := true;
      StopsAtFirstFailure(old(rows), messages, answers, inserted);
    }
  }

  /** `dialog_mark_as_read`. The status of the send is looked at and ignored: the removal
      follows whatever it was. */
  method DialogMarkAsRead(unread: UnreadService, dialogs: DialogsService, ids: seq<Uuid>, answers: nat -> bool)
    returns (inserted: nat)
    modifies unread, dialogs
    ensures StopsAfter(old(dialogs.rows), WithIds(old(unread.rows), ids), answers, inserted)
    ensures dialogs.rows == InsertedAll(old(dialogs.rows), WithIds(old(unread.rows), ids)[..inserted])
    ensures unread.rows == WithoutIds(old(unread.rows), ids)
    ensures forall m :: multiset(unread.rows)[m] == if m.id in ids then 0 else multiset(old(unread.rows))[m]
    ensures var batch := WithIds(old(unread.rows), ids);
            && (forall m :: multiset(batch)[m] == if m.id in ids then multiset(old(unread.rows))[m] else 0)
            && (forall i | 0 <= i < inserted :: NewAndAnswered(old(dialogs.rows), batch, answers, i))
            && (inserted < |batch| ==> !NewAndAnswered(old(dialogs.rows), batch, answers, inserted))
            && forall x :: Holds(dialogs.rows, x) <==> Holds(old(dialogs.rows), x) || x in batch[..inserted]
  {
    var messages := unread.GetByIds(ids);
    var ok;
    ok, inserted := dialogs.SendMessagesVec(messages, answers);
    var _ := unread.RemoveByIds(ids);
  }

  // ---- one run without interference ---------------------------------------------------------

  /** After a run whose loop inserted n messages, neither store has the message. */
  ghost predicate Lost(unread: seq<Message>, dialogs: Dialogs, ids: seq<Uuid>, n: nat, m: Message)
    requires n <= |WithIds(unread, ids)|
  {
    m !in WithoutIds(unread, ids) && !Holds(InsertedAll(dialogs, WithIds(unread, ids)[..n]), m)
  }

  lemma NotYetReached(batch: seq<Message>, n: nat, i: nat)
    requires UniqueMessageIds(batch) && n <= i < |batch|
    ensures forall m | m in batch[..n] :: m.id != batch[i].id
  {
    forall m | m in batch[..n] ensures m.id != batch[i].id {
      var j :| 0 <= j < n && batch[j] == m;
    }
  }

  /** A fetched message is gone after the run exactly when the loop stopped at or before it and
      `dialogs` did not hold the very message already. */
  lemma LostIff(unread: seq<Message>, dialogs: Dialogs, ids: seq<Uuid>, answers: nat -> bool, n: nat, i: nat)
    requires UniqueMessageIds(unread) && i < |WithIds(unread, ids)|
    requires StopsAfter(dialogs, WithIds(unread, ids), answers, n)
    ensures Lost(unread, dialogs, ids, n, WithIds(unread, ids)[i])
       <==> n <= i && !Holds(dialogs, WithIds(unread, ids)[i])
  {
    var batch := WithIds(unread, ids);
    WithIdsUnique(unread, ids);
    assert batch[i] in batch;
    if i < n {
      assert batch[..n][i] in batch[..n];
      InsertedAllHolds(dialogs, batch[..n], batch[i]);
    } else {
      NotYetReached(batch, n, i);
      InsertedAllElsewhere(dialogs, batch[..n], batch[i].id);
    }
  }

  /** Other rows of both stores are untouched, whatever the send returned. */
  lemma OthersUntouched(unread: seq<Message>, dialogs: Dialogs, ids: seq<Uuid>, n: nat, m: Message)
    requires n <= |WithIds(unread, ids)| && m.id !in ids
    ensures m in WithoutIds(unread, ids) <==> m in unread
    ensures Holds(InsertedAll(dialogs, WithIds(unread, ids)[..n]), m) <==> Holds(dialogs, m)
  {
    var batch := WithIds(unread, ids);
    forall x | x in batch[..n] ensures x.id != m.id {
      assert x in batch;
    }
    InsertedAllElsewhere(dialogs, batch[..n], m.id);
  }

  /** A run whose send is OK moves the batch: no requested identifier is left in `unread`, every
      fetched message is in `dialogs`, and the number of messages is the same. */
  lemma CompletedMove(unread: seq<Message>, dialogs: Dialogs, ids: seq<Uuid>, answers: nat -> bool)
    requires UniqueMessageIds(unread)
    requires StopsAfter(dialogs, WithIds(unread, ids), answers, |WithIds(unread, ids)|)
    ensures forall m | m in WithoutIds(unread, ids) :: m.id !in ids
    ensures forall m | m in unread && m.id in ids :: Holds(InsertedAll(dialogs, WithIds(unread, ids)), m)
    ensures |WithoutIds(unread, ids)| + |InsertedAll(dialogs, WithIds(unread, ids))| == |unread| + |dialogs|
  {
    var batch := WithIds(unread, ids);
    WithIdsUnique(unread, ids);
    forall m | m in unread && m.id in ids ensures Holds(InsertedAll(dialogs, batch), m) {
      InsertedAllHolds(dialogs, batch, m);
    }
    InsertedAllSize(dialogs, batch, answers);
  }

  /** One of the two stores holds the message. */
  ghost predicate Kept(unread: seq<Message>, dialogs: Dialogs, m: Message) {
    m in unread || Holds(dialogs, m)
  }

  lemma InsertedKeysAreNew(dialogs: Dialogs, batch: seq<Message>, answers: nat -> bool, i: nat)
    requires UniqueMessageIds(batch) && i < |batch| && Accepts(dialogs, batch, answers, i)
    ensures batch[i].id !in dialogs
  {
    NotYetReached(batch, i, i);
    InsertedAllElsewhere(dialogs, batch[..i], batch[i].id);
  }

  /** The run inserted a message under m's key, at position i of the batch. */
  lemma InsertedKeyKeepsUnion(unread: seq<Message>, dialogs: Dialogs, ids: seq<Uuid>, answers: nat -> bool,
                              n: nat, m: Message, i: nat)
    requires UniqueMessageIds(unread) && StopsAfter(dialogs, WithIds(unread, ids), answers, n)
    requires i < n && WithIds(unread, ids)[i].id == m.id
    ensures m.id !in dialogs
    ensures Holds(InsertedAll(dialogs, WithIds(unread, ids)[..n]), m) <==> m in unread
  {
    var batch := WithIds(unread, ids);
    WithIdsUnique(unread, ids);
    InsertedKeysAreNew(dialogs, batch, answers, i);
    assert batch[i] in batch && batch[..n][i] in batch[..n];
    InsertedAllHolds(dialogs, batch[..n], batch[i]);
    if m in unread { SameIdSameMessage(unread, m, batch[i]); }
  }

  /** The run inserted nothing under m's key. */
  lemma OtherKeyKeepsUnion(unread: seq<Message>, dialogs: Dialogs, ids: seq<Uuid>, n: nat, m: Message)
    requires n <= |WithIds(unread, ids)|
    requires forall i | 0 <= i < n :: WithIds(unread, ids)[i].id != m.id
    ensures Holds(InsertedAll(dialogs, WithIds(unread, ids)[..n]), m) <==> Holds(dialogs, m)
    ensures n == |WithIds(unread, ids)| && m in unread ==> m.id !in ids
  {
    var batch := WithIds(unread, ids);
    InsertedAllElsewhere(dialogs, batch[..n], m.id);
    assert m in unread && m.id in ids ==> m in batch;
  }

  /** If the removal waited for an OK send, the messages held by the two stores together would
      be the same after every run, wherever the insert loop stops. */
  lemma GuardedRunKeepsUnion(unread: seq<Message>, dialogs: Dialogs, ids: seq<Uuid>, answers: nat -> bool,
                             n: nat, m: Message)
    requires UniqueMessageIds(unread) && StopsAfter(dialogs, WithIds(unread, ids), answers, n)
    ensures var batch := WithIds(unread, ids);
            var unread' := if n == |batch| then WithoutIds(unread, ids) else unread;
            Kept(unread', InsertedAll(dialogs, batch[..n]), m) == Kept(unread, dialogs, m)
  {
    var batch := WithIds(unread, ids);
    if i :| 0 <= i < n && batch[i].id == m.id {
      InsertedKeyKeepsUnion(unread, dialogs, ids, answers, n, m, i);
    } else {
      OtherKeyKeepsUnion(unread, dialogs, ids, n, m);
    }
  }

  lemma KnownFirstMessageStops(dialogs: Dialogs, batch: seq<Message>, answers: nat -> bool)
    requires batch != [] && batch[0].id in dialogs
    ensures StopsAfter(dialogs, batch, answers, 0)
  {
    assert batch[..0] == [];
  }

  /** The failure that the ignored status hides: a first run inserted part of the batch and was
      cut off before the removal. The retry meets its own first row, stops at once and removes
      everything, so that what the first run had not inserted is lost. */
  lemma RetryAfterCrashLosesRest(unread: seq<Message>, dialogs: Dialogs, ids: seq<Uuid>, answers: nat -> bool,
                                 done: nat, i: nat)
    requires UniqueMessageIds(unread) && 0 < done <= i < |WithIds(unread, ids)|
    requires forall m | m in WithIds(unread, ids) :: m.id !in dialogs
    ensures var partly := InsertedAll(dialogs, WithIds(unread, ids)[..done]);
            && StopsAfter(partly, WithIds(unread, ids), answers, 0)
            && Lost(unread, partly, ids, 0, WithIds(unread, ids)[i])
  {
    var batch := WithIds(unread, ids);
    var partly := InsertedAll(dialogs, batch[..done]);
    WithIdsUnique(unread, ids);
    assert batch[..done][0] in batch[..done];
    InsertedAllHolds(dialogs, batch[..done], batch[0]);
    KnownFirstMessageStops(partly, batch, answers);
    assert batch[i] in batch;
    NotYetReached(batch, done, i);
    InsertedAllElsewhere(dialogs, batch[..done], batch[i].id);
    LostIff(unread, partly, ids, answers, 0, i);
  }
}
