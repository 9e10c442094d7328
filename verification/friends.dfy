/** The friend relation as the Postgres storage keeps it: a table of rows without a
    uniqueness constraint. A row (user, friend) means that `user` reads the posts of `friend`. */
module Friends {
  import opened Options
  import opened Posts

  datatype Friend = Friend(id: Uuid, user: Uuid, friend: Uuid)

  /** `WHERE user_id = $1 AND friend_id = $2` */
  function PairRows(rows: seq<Friend>, user: Uuid, friend: Uuid): (r: seq<Friend>)
    ensures forall f :: f in r <==> f in rows && f.user == user && f.friend == friend
  {
    if rows == [] then []
    else
      var last := rows[|rows| - 1];
      assert rows == rows[..|rows| - 1] + [last];
      PairRows(rows[..|rows| - 1], user, friend)
      + (if last.user == user && last.friend == friend then [last] else [])
  }

  /** `DELETE ... WHERE user_id = $1 AND friend_id = $2` leaves these rows. */
  function WithoutPair(rows: seq<Friend>, user: Uuid, friend: Uuid): (r: seq<Friend>)
    ensures forall f :: f in r <==> f in rows && !(f.user == user && f.friend == friend)
  {
    if rows == [] then []
    else
      var last := rows[|rows| - 1];
      assert rows == rows[..|rows| - 1] + [last];
      WithoutPair(rows[..|rows| - 1], user, friend)
      + (if last.user == user && last.friend == friend then [] else [last])
  }

  /** `WHERE user_id = $1` */
  function RowsOfUser(rows: seq<Friend>, user: Uuid): (r: seq<Friend>)
    ensures forall f :: f in r <==> f in rows && f.user == user
  {
    if rows == [] then []
    else
      var last := rows[|rows| - 1];
      assert rows == rows[..|rows| - 1] + [last];
      RowsOfUser(rows[..|rows| - 1], user) + (if last.user == user then [last] else [])
  }

  /** `WHERE friend_id = $1` */
  function RowsOfFriend(rows: seq<Friend>, friend: Uuid): (r: seq<Friend>)
    ensures forall f :: f in r <==> f in rows && f.friend == friend
  {
    if rows == [] then []
    else
      var last := rows[|rows| - 1];
      assert rows == rows[..|rows| - 1] + [last];
      RowsOfFriend(rows[..|rows| - 1], friend) + (if last.friend == friend then [last] else [])
  }

  /** `query_one` succeeds on exactly one row: it fails on none and on several. */
  function QueryOne(found: seq<Friend>): Option<Friend> {
    if |found| == 1 then Some(found[0]) else None
  }

  function Users(rows: seq<Friend>): (r: seq<Uuid>)
    ensures |r| == |rows|
  {
    seq(|rows|, i requires 0 <= i < |rows| => rows[i].user)
  }

  /** The authors a user reads. */
  function Follows(rows: seq<Friend>, user: Uuid): set<Uuid> {
    set f | f in rows && f.user == user :: f.friend
  }

  /** The readers of an author, one entry per row of the relation. */
  function Followers(rows: seq<Friend>, friend: Uuid): seq<Uuid> {
    Users(RowsOfFriend(rows, friend))
  }

  ghost predicate UniquePairs(rows: seq<Friend>) {
    forall u, a :: |PairRows(rows, u, a)| <= 1
  }

  /** A reader occurs among the followers of an author as often as the pair has rows. */
  lemma {:induction false} FollowersCountPairs(rows: seq<Friend>, user: Uuid, friend: Uuid)
    ensures multiset(Followers(rows, friend))[user] == |PairRows(rows, user, friend)|
  {
    if rows == [] {
    } else {
      var last, front := rows[|rows| - 1], rows[..|rows| - 1];
      FollowersCountPairs(front, user, friend);
      assert Followers(rows, friend)
          == Followers(front, friend) + (if last.friend == friend then [last.user] else []);
    }
  }

  lemma FollowersAreReaders(rows: seq<Friend>, user: Uuid, friend: Uuid)
    ensures user in Followers(rows, friend) <==> friend in Follows(rows, user)
  {
    FollowersCountPairs(rows, user, friend);
    var fs := Followers(rows, friend);
    assert user in fs <==> user in multiset(fs);
    var pair := PairRows(rows, user, friend);
    assert |pair| > 0 ==> pair[0] in pair;
    assert friend in Follows(rows, user) ==> exists f :: f in rows && f.user == user && f.friend == friend;
  }

  /** Both lookups return each matching row as often as the table has it. */
  lemma {:induction false} LookupsCount(rows: seq<Friend>, user: Uuid, f: Friend)
    ensures multiset(RowsOfUser(rows, user))[f] == if f.user == user then multiset(rows)[f] else 0
    ensures multiset(RowsOfFriend(rows, user))[f] == if f.friend == user then multiset(rows)[f] else 0
  {
    if rows == [] {
    } else {
      assert rows == rows[..|rows| - 1] + [rows[|rows| - 1]];
      LookupsCount(rows[..|rows| - 1], user, f);
    }
  }

  function Names(rows: seq<Friend>): (r: seq<Uuid>)
    ensures |r| == |rows|
  {
    seq(|rows|, i requires 0 <= i < |rows| => rows[i].friend)
  }

  lemma NamesAreFollows(rows: seq<Friend>, user: Uuid)
    ensures (set a | a in Names(RowsOfUser(rows, user))) == Follows(rows, user)
  {
    var found := RowsOfUser(rows, user);
    var names := Names(found);
    forall a | a in names ensures a in Follows(rows, user) {
      var i :| 0 <= i < |names| && names[i] == a;
      assert found[i] in found;
    }
    forall a | a in Follows(rows, user) ensures a in names {
      var f :| f in rows && f.user == user && f.friend == a;
      assert f in found;
      var i :| 0 <= i < |found| && found[i] == f;
      assert names[i] == a;
    }
  }

  // ---- the storage object ---------------------------------------------------------------

  class PostgresFriendStorage {
    var rows: seq<Friend>

    constructor ()
      ensures rows == []
    {
      rows := [];
    }

    method GetByUserId(user: Uuid) returns (friends: seq<Friend>)
      ensures friends == RowsOfUser(rows, user)
    {
      var found := RowsOfUser(rows, user);
      friends := [];
      for i := 0 to |found|
        invariant friends == found[..i]
      {
        friends := friends + [found[i]];
      }
    }

    method GetByFriendId(friend: Uuid) returns (friends: seq<Friend>)
      ensures friends == RowsOfFriend(rows, friend)
    {
      var found := RowsOfFriend(rows, friend);
      friends := [];
      for i := 0 to |found|
        invariant friends == found[..i]
      {
        friends := friends + [found[i]];
      }
    }

    method GetByUserIdAndFriendId(user: Uuid, friend: Uuid) returns (found: Option<Friend>)
      ensures found.Some? <==> |PairRows(rows, user, friend)| == 1
      ensures found.Some? ==> found.value in rows && found.value.user == user && found.value.friend == friend
    {
      var pair := PairRows(rows, user, friend);
      found := QueryOne(pair);
      assert found.Some? ==> found.value in pair;
    }

    method Create(friend: Friend) returns (id: Uuid)
      modifies this
      ensures rows == old(rows) + [friend] && id == friend.id
      ensures forall u, a :: |PairRows(rows, u, a)| == |PairRows(old(rows), u, a)|
                             + (if u == friend.user && a == friend.friend then 1 else 0)
    {
      forall u, a ensures |PairRows(rows + [friend], u, a)| == |PairRows(rows, u, a)|
                            + (if u == friend.user && a == friend.friend then 1 else 0)
      {
        PairRowsOfAppended(rows, friend, u, a);
      }
      rows := rows + [friend];
      id := friend.id;
    }

    method Delete(friend: Friend)
      modifies this
      ensures rows == WithoutPair(old(rows), friend.user, friend.friend)
      ensures forall u, a :: |PairRows(rows, u, a)| ==
                if u == friend.user && a == friend.friend then 0 else |PairRows(old(rows), u, a)|
    {
      forall u, a ensures |PairRows(WithoutPair(rows, friend.user, friend.friend), u, a)| ==
                            if u == friend.user && a == friend.friend then 0 else |PairRows(rows, u, a)|
      {
        WithoutPairCounts(rows, friend.user, friend.friend, u, a);
      }
      rows := WithoutPair(rows, friend.user, friend.friend);
    }

    method IsPersistant(friend: Friend) returns (yes: bool)
      ensures yes <==> |PairRows(rows, friend.user, friend.friend)| == 1
    {
      yes := QueryOne(PairRows(rows, friend.user, friend.friend)).Some?;
    }
  }

  // ---- runs of friend_set and friend_delete -----------------------------------------------

  datatype FriendOp = Set(row: Friend) | Unset(user: Uuid, friend: Uuid)

  /** Both handlers look the pair up with `query_one` first and refuse on the wrong answer. */
  function Applied(rows: seq<Friend>, op: FriendOp): seq<Friend> {
    match op
    case Set(f) =>
      if QueryOne(PairRows(rows, f.user, f.friend)).Some? then rows else rows + [f]
    case Unset(u, a) =>
      if QueryOne(PairRows(rows, u, a)).Some? then WithoutPair(rows, u, a) else rows
  }

  function AppliedAll(rows: seq<Friend>, ops: seq<FriendOp>): seq<Friend>
    decreases |ops|
  {
    if ops == [] then rows else AppliedAll(Applied(rows, ops[0]), ops[1..])
  }

  predicate Concerns(op: FriendOp, user: Uuid, friend: Uuid) {
    match op
    case Set(f) => f.user == user && f.friend == friend
    case Unset(u, a) => u == user && a == friend
  }

  lemma PairRowsOfAppended(rows: seq<Friend>, f: Friend, user: Uuid, friend: Uuid)
    ensures |PairRows(rows + [f], user, friend)|
         == |PairRows(rows, user, friend)| + (if f.user == user && f.friend == friend then 1 else 0)
  {
    assert (rows + [f])[..|rows|] == rows;
  }

  lemma WithoutPairOfAppended(rows: seq<Friend>, f: Friend, u: Uuid, a: Uuid)
    ensures WithoutPair(rows + [f], u, a)
         == WithoutPair(rows, u, a) + (if f.user == u && f.friend == a then [] else [f])
  {
    assert (rows + [f])[..|rows|] == rows;
  }

  lemma {:induction false} WithoutPairCounts(rows: seq<Friend>, u: Uuid, a: Uuid, user: Uuid, friend: Uuid)
    ensures |PairRows(WithoutPair(rows, u, a), user, friend)|
         == if u == user && a == friend then 0 else |PairRows(rows, user, friend)|
    decreases |rows|
  {
    if rows != [] {
      var last, front := rows[|rows| - 1], rows[..|rows| - 1];
      assert rows == front + [last];
      WithoutPairCounts(front, u, a, user, friend);
      WithoutPairOfAppended(front, last, u, a);
      PairRowsOfAppended(front, last, user, friend);
      PairRowsOfAppended(WithoutPair(front, u, a), last, user, friend);
      assert last.user == u && last.friend == a ==> WithoutPair(rows, u, a) == WithoutPair(front, u, a);
    }
  }

  /** One handler call, seen by one pair: a pair with a single row can be removed and refuses
      to be set again; a pair without one can be set; a pair with several rows can only grow. */
  lemma OpCounts(rows: seq<Friend>, op: FriendOp, user: Uuid, friend: Uuid)
    ensures var n := |PairRows(rows, user, friend)|;
            |PairRows(Applied(rows, op), user, friend)| ==
              if !Concerns(op, user, friend) then n
              else if op.Set? then (if n == 1 then 1 else n + 1)
              else if n == 1 then 0 else n
  {
    match op
    case Set(f) =>
      PairRowsOfAppended(rows, f, user, friend);
    case Unset(u, a) =>
      WithoutPairCounts(rows, u, a, user, friend);
  }

  lemma {:induction false} UniquePairsRun(rows: seq<Friend>, ops: seq<FriendOp>)
    requires UniquePairs(rows)
    ensures UniquePairs(AppliedAll(rows, ops))
    decreases |ops|
  {
    if ops == [] {
    } else {
      forall u, a ensures |PairRows(Applied(rows, ops[0]), u, a)| <= 1 {
        OpCounts(rows, ops[0], u, a);
      }
      UniquePairsRun(Applied(rows, ops[0]), ops[1..]);
    }
  }

  /** What the calls of a run ask for: the last call about the pair decides. */
  predicate Wanted(ops: seq<FriendOp>, user: Uuid, friend: Uuid, initially: bool) {
    if ops == [] then initially
    else if Concerns(ops[|ops| - 1], user, friend) then ops[|ops| - 1].Set?
    else Wanted(ops[..|ops| - 1], user, friend, initially)
  }

  lemma {:induction false} WantedFromFirst(ops: seq<FriendOp>, user: Uuid, friend: Uuid, initially: bool)
    requires ops != []
    ensures Wanted(ops, user, friend, initially)
        <==> Wanted(ops[1..], user, friend,
                    if Concerns(ops[0], user, friend) then ops[0].Set? else initially)
  {
    if |ops| == 1 {
    } else {
      WantedFromFirst(ops[..|ops| - 1], user, friend, initially);
      assert ops[1..][..|ops| - 2] == ops[..|ops| - 1][1..];
    }
  }

  /** Starting without duplicates, the relation after any run is the one asked for last. */
  lemma {:induction false} LastCallDecides(rows: seq<Friend>, ops: seq<FriendOp>, user: Uuid, friend: Uuid)
    requires |PairRows(rows, user, friend)| <= 1
    ensures |PairRows(AppliedAll(rows, ops), user, friend)|
         == if Wanted(ops, user, friend, |PairRows(rows, user, friend)| == 1) then 1 else 0
    decreases |ops|
  {
    if ops == [] {
    } else {
      OpCounts(rows, ops[0], user, friend);
      LastCallDecides(Applied(rows, ops[0]), ops[1..], user, friend);
      WantedFromFirst(ops, user, friend, |PairRows(rows, user, friend)| == 1);
    }
  }

  function CountSets(ops: seq<FriendOp>, user: Uuid, friend: Uuid): nat {
    if ops == [] then 0
    else (if ops[0].Set? && Concerns(ops[0], user, friend) then 1 else 0) + CountSets(ops[1..], user, friend)
  }

  /** A pair that has two rows is never repaired: every set adds a row, no delete removes one. */
  lemma {:induction false} DuplicateNeverLeaves(rows: seq<Friend>, ops: seq<FriendOp>, user: Uuid, friend: Uuid)
    requires |PairRows(rows, user, friend)| >= 2
    ensures |PairRows(AppliedAll(rows, ops), user, friend)|
         == |PairRows(rows, user, friend)| + CountSets(ops, user, friend)
    decreases |ops|
  {
    if ops == [] {
    } else {
      OpCounts(rows, ops[0], user, friend);
      DuplicateNeverLeaves(Applied(rows, ops[0]), ops[1..], user, friend);
    }
  }

  /** So a run leaves a pair unduplicated exactly when it was so to begin with. */
  lemma UnduplicatedIffInitially(rows: seq<Friend>, ops: seq<FriendOp>, user: Uuid, friend: Uuid)
    ensures |PairRows(AppliedAll(rows, ops), user, friend)| <= 1
       <==> |PairRows(rows, user, friend)| <= 1
  {
    if |PairRows(rows, user, friend)| <= 1 {
      LastCallDecides(rows, ops, user, friend);
    } else {
      DuplicateNeverLeaves(rows, ops, user, friend);
    }
  }

  /** Two concurrent calls that both look the pair up before either inserts make a duplicate. */
  lemma ConcurrentSetsDuplicate(rows: seq<Friend>, first: Friend, second: Friend)
    requires first.user == second.user && first.friend == second.friend
    requires QueryOne(PairRows(rows, first.user, first.friend)).None?
    ensures |PairRows(rows + [first] + [second], first.user, first.friend)| >= 2
  {
    PairRowsOfAppended(rows, first, first.user, first.friend);
    PairRowsOfAppended(rows + [first], second, first.user, first.friend);
  }
}
