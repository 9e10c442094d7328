/** The Redis list commands the feed cache uses. A key is the owner of the feed (the program
    prefixes the user's identifier with a constant). A list without elements does not exist. */
module RedisLists {
  import opened Options
  import opened Posts

  /** A cached element. `row` records which table row it came from; the program stores only
      `post`, and no decision of the model looks at `row`. */
  datatype Entry = Entry(post: Post, row: Uuid)

  type Lists = map<Uuid, seq<Entry>>

  ghost predicate NoEmptyList(m: Lists) {
    forall k | k in m :: m[k] != []
  }

  function At(m: Lists, k: Uuid): seq<Entry> {
    if k in m then m[k] else []
  }

  /** The elements from `start` to `stop`, both included, as far as they exist. */
  function Range<T>(s: seq<T>, start: nat, stop: nat): seq<T> {
    if start >= |s| || start > stop then []
    else s[start .. if stop < |s| then stop + 1 else |s|]
  }

  /** A list that becomes empty is removed with its key. */
  function Stored(m: Lists, k: Uuid, s: seq<Entry>): Lists {
    if s == [] then m - {k} else m[k := s]
  }

  function LPushed(m: Lists, k: Uuid, v: Entry): Lists {
    m[k := [v] + At(m, k)]
  }

  function RPushed(m: Lists, k: Uuid, v: Entry): Lists {
    m[k := At(m, k) + [v]]
  }

  function LTrimmed(m: Lists, k: Uuid, start: nat, stop: nat): Lists {
    if k in m then Stored(m, k, Range(m[k], start, stop)) else m
  }

  class RedisConnection {
    var lists: Lists

    ghost predicate Valid()
      reads this
    {
      NoEmptyList(lists)
    }

    constructor ()
      ensures Valid() && lists == map[]
    {
      lists := map[];
    }

    method Exists(key: Uuid) returns (yes: bool)
      requires Valid()
      ensures yes <==> key in lists
      ensures yes <==> At(lists, key) != []
    {
      yes := key in lists;
    }

    method Del(key: Uuid)
      requires Valid()
      modifies this
      ensures Valid() && lists == old(lists) - {key}
      ensures At(lists, key) == [] && forall k | k != key :: At(lists, k) == At(old(lists), k)
    {
      lists := lists - {key};
    }

    method LPush(key: Uuid, value: Entry)
      requires Valid()
      modifies this
      ensures Valid() && lists == LPushed(old(lists), key, value)
      ensures At(lists, key) == [value] + At(old(lists), key)
      ensures forall k | k != key :: At(lists, k) == At(old(lists), k)
    {
      lists := LPushed(lists, key, value);
    }

    method RPush(key: Uuid, value: Entry)
      requires Valid()
      modifies this
      ensures Valid() && lists == RPushed(old(lists), key, value)
      ensures At(lists, key) == At(old(lists), key) + [value]
      ensures forall k | k != key :: At(lists, k) == At(old(lists), k)
    {
      lists := RPushed(lists, key, value);
    }

    method LTrim(key: Uuid, start: nat, stop: nat)
      requires Valid()
      modifies this
      ensures Valid() && lists == LTrimmed(old(lists), key, start, stop)
      ensures |At(lists, key)| == if start <= stop && start < |At(old(lists), key)|
                                  then Min(stop + 1, |At(old(lists), key)|) - start else 0
      ensures forall i | 0 <= i < |At(lists, key)| :: At(lists, key)[i] == At(old(lists), key)[start + i]
      ensures forall k | k != key :: At(lists, k) == At(old(lists), k)
    {
      lists := LTrimmed(lists, key, start, stop);
    }

    /** The elements at the positions from `start` to `stop` that the list has, in their order. */
    method LRange(key: Uuid, start: nat, stop: nat) returns (values: seq<Entry>)
      requires Valid()
      ensures values == Range(At(lists, key), start, stop)
      ensures |values| == if start <= stop && start < |At(lists, key)|
                          then Min(stop + 1, |At(lists, key)|) - start else 0
      ensures forall i | 0 <= i < |values| :: values[i] == At(lists, key)[start + i]
    {
      values := Range(At(lists, key), start, stop);
    }
  }
}
