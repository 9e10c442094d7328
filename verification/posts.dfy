/** Posts, and the query that selects a feed: filter by author, newest first, limit. */
module Posts {
  import opened Options

  /** UUIDs are only compared, so any countable identifier serves. */
  type Uuid = nat

  const FEED_LENGTH: nat := 1000

  datatype Post = Post(id: Uuid, content: string, author: Uuid, created: int, updated: int)

  /** What a reader sees of a post, apart from its identifier and its times. */
  datatype View = View(content: string, author: Uuid)

  function ViewOf(p: Post): View {
    View(p.content, p.author)
  }

  function Views(s: seq<Post>): (r: seq<View>)
    ensures |r| == |s|
  {
    seq(|s|, i requires 0 <= i < |s| => ViewOf(s[i]))
  }

  /** Equal views are equal contents by equal authors, place by place. */
  lemma SameViewsIff(a: seq<Post>, b: seq<Post>)
    ensures Views(a) == Views(b)
       <==> |a| == |b| && forall i | 0 <= i < |a| :: a[i].content == b[i].content && a[i].author == b[i].author
  {
    if Views(a) == Views(b) {
      forall i | 0 <= i < |a| ensures a[i].content == b[i].content && a[i].author == b[i].author {
        assert Views(a)[i] == Views(b)[i];
      }
    }
  }

  /** `ORDER BY time_updated DESC`; rows with equal times are ordered by identifier. */
  predicate Newer(a: Post, b: Post) {
    a.updated > b.updated || (a.updated == b.updated && a.id > b.id)
  }

  ghost predicate NewestFirst(s: seq<Post>) {
    forall i, j | 0 <= i < j < |s| :: !Newer(s[j], s[i])
  }

  ghost predicate UniqueIds(s: seq<Post>) {
    forall i, j | 0 <= i < j < |s| :: s[i].id != s[j].id
  }

  function Insert(p: Post, s: seq<Post>): seq<Post> {
    if s == [] || Newer(p, s[0]) then [p] + s else [s[0]] + Insert(p, s[1..])
  }

  function OrderByUpdatedDesc(rows: seq<Post>): seq<Post> {
    if rows == [] then [] else Insert(rows[0], OrderByUpdatedDesc(rows[1..]))
  }

  lemma {:induction false} InsertKeepsRows(p: Post, s: seq<Post>)
    ensures multiset(Insert(p, s)) == multiset(s) + multiset{p}
    ensures |Insert(p, s)| == |s| + 1
  {
    if s == [] || Newer(p, s[0]) {
    } else {
      InsertKeepsRows(p, s[1..]);
      assert s == [s[0]] + s[1..];
    }
  }

  lemma {:induction false} OrderKeepsMultiset(rows: seq<Post>)
    ensures multiset(OrderByUpdatedDesc(rows)) == multiset(rows)
    ensures |OrderByUpdatedDesc(rows)| == |rows|
  {
    if rows == [] {
    } else {
      var first, rest := rows[0], rows[1..];
      OrderKeepsMultiset(rest);
      InsertKeepsRows(first, OrderByUpdatedDesc(rest));
      assert rows == [first] + rest;
      assert multiset(rows) == multiset{first} + multiset(rest);
    }
  }

  lemma OrderKeepsRows(rows: seq<Post>)
    ensures multiset(OrderByUpdatedDesc(rows)) == multiset(rows)
    ensures |OrderByUpdatedDesc(rows)| == |rows|
    ensures forall p :: p in OrderByUpdatedDesc(rows) <==> p in rows
  {
    OrderKeepsMultiset(rows);
    var o := OrderByUpdatedDesc(rows);
    forall p ensures p in o <==> p in rows {
      assert p in o <==> p in multiset(o);
      assert p in rows <==> p in multiset(rows);
    }
  }

  lemma {:induction false} InsertKeepsOrder(p: Post, s: seq<Post>)
    requires NewestFirst(s)
    ensures NewestFirst(Insert(p, s))
  {
    if s == [] || Newer(p, s[0]) {
    } else {
      var rest := Insert(p, s[1..]);
      InsertKeepsOrder(p, s[1..]);
      InsertKeepsRows(p, s[1..]);
      forall x | x in rest ensures !Newer(x, s[0]) {
        assert x in multiset(rest);
        assert x == p || x in s[1..];
      }
    }
  }

  lemma {:induction false} OrderIsNewestFirst(rows: seq<Post>)
    ensures NewestFirst(OrderByUpdatedDesc(rows))
  {
    if rows == [] {
    } else {
      OrderIsNewestFirst(rows[1..]);
      InsertKeepsOrder(rows[0], OrderByUpdatedDesc(rows[1..]));
    }
  }

  lemma NewestHeadIsUnique(a: seq<Post>, b: seq<Post>)
    requires NewestFirst(a) && NewestFirst(b) && UniqueIds(a)
    requires a != [] && b != [] && b[0] in a && a[0] in b
    ensures a[0] == b[0]
  {
    var i :| 0 <= i < |a| && a[i] == b[0];
    var j :| 0 <= j < |b| && b[j] == a[0];
  }

  lemma SameRowsTail(a: seq<Post>, b: seq<Post>)
    requires a != [] && b != [] && a[0] == b[0] && multiset(a) == multiset(b)
    ensures multiset(a[1..]) == multiset(b[1..])
  {
    assert a == [a[0]] + a[1..] && b == [b[0]] + b[1..];
    assert multiset(a[1..]) == multiset(a) - multiset{a[0]};
    assert multiset(b[1..]) == multiset(b) - multiset{b[0]};
  }

  /** With distinct identifiers the order leaves no freedom: any sorted arrangement of the
      same rows is this one, so the storage order of the table cannot show in a feed. */
  lemma {:induction false} OrderIsUnique(a: seq<Post>, b: seq<Post>)
    requires NewestFirst(a) && NewestFirst(b)
    requires UniqueIds(a) && multiset(a) == multiset(b)
    ensures a == b
  {
    assert |a| == |multiset(a)| && |b| == |multiset(b)|;
    if a == [] {
    } else {
      assert a[0] in multiset(a) && b[0] in multiset(b);
      NewestHeadIsUnique(a, b);
      SameRowsTail(a, b);
      OrderIsUnique(a[1..], b[1..]);
      assert a == [a[0]] + a[1..] && b == [b[0]] + b[1..];
    }
  }

  /** `WHERE user_id IN (SELECT friend_id ...)` */
  function ByAuthors(rows: seq<Post>, authors: set<Uuid>): (r: seq<Post>)
    ensures forall p :: p in r <==> p in rows && p.author in authors
  {
    if rows == [] then []
    else
      assert rows == [rows[0]] + rows[1..];
      (if rows[0].author in authors then [rows[0]] else []) + ByAuthors(rows[1..], authors)
  }

  /** The rows the feed query returns: `... ORDER BY time_updated DESC LIMIT FEED_LENGTH`. */
  function Selected(rows: seq<Post>, authors: set<Uuid>): (r: seq<Post>)
    ensures |r| <= FEED_LENGTH
  {
    Take(OrderByUpdatedDesc(ByAuthors(rows, authors)), FEED_LENGTH)
  }

  lemma SelectedIsByAuthors(rows: seq<Post>, authors: set<Uuid>)
    ensures |Selected(rows, authors)| == Min(FEED_LENGTH, |ByAuthors(rows, authors)|)
    ensures forall p | p in Selected(rows, authors) :: p in rows && p.author in authors
  {
    var c := ByAuthors(rows, authors);
    OrderKeepsRows(c);
    forall p | p in Selected(rows, authors) ensures p in c {
      assert p in OrderByUpdatedDesc(c);
    }
  }

  lemma PrefixIsNotOlder(o: seq<Post>, n: nat, p: Post, q: Post)
    requires NewestFirst(o) && n <= |o|
    requires p in o && p !in o[..n] && q in o[..n]
    ensures !Newer(p, q)
  {
    assert o == o[..n] + o[n..];
    var i :| n <= i < |o| && o[i] == p;
    var j :| 0 <= j < n && o[j] == q;
  }

  lemma LeftOutIsNotNewer(rows: seq<Post>, authors: set<Uuid>, p: Post, q: Post)
    requires p in rows && p.author in authors
    requires p !in Selected(rows, authors) && q in Selected(rows, authors)
    ensures !Newer(p, q)
  {
    var c := ByAuthors(rows, authors);
    OrderKeepsRows(c);
    OrderIsNewestFirst(c);
    PrefixIsNotOlder(OrderByUpdatedDesc(c), |Selected(rows, authors)|, p, q);
  }

  /** The query returns only rows by the given authors, newest first, as many as fit, and a
      row by these authors that is left out is not newer than any row returned. */
  lemma SelectedIsNewestByAuthors(rows: seq<Post>, authors: set<Uuid>)
    ensures var r := Selected(rows, authors);
            && NewestFirst(r)
            && (forall p | p in r :: p in rows && p.author in authors)
            && |r| == Min(FEED_LENGTH, |ByAuthors(rows, authors)|)
            && (forall p, q | p in rows && p.author in authors && p !in r && q in r :: !Newer(p, q))
  {
    var r := Selected(rows, authors);
    SelectedIsByAuthors(rows, authors);
    OrderIsNewestFirst(ByAuthors(rows, authors));
    forall p, q | p in rows && p.author in authors && p !in r && q in r ensures !Newer(p, q) {
      LeftOutIsNotNewer(rows, authors, p, q);
    }
  }

  lemma ByAuthorsOfPrepended(row: Post, rows: seq<Post>, authors: set<Uuid>)
    ensures ByAuthors([row] + rows, authors)
         == (if row.author in authors then [row] else []) + ByAuthors(rows, authors)
  {
    assert ([row] + rows)[1..] == rows;
  }

  lemma OrderOfPrependedNewest(row: Post, rows: seq<Post>)
    requires forall r | r in rows :: Newer(row, r)
    ensures OrderByUpdatedDesc([row] + rows) == [row] + OrderByUpdatedDesc(rows)
  {
    var o := OrderByUpdatedDesc(rows);
    assert ([row] + rows)[1..] == rows;
    OrderKeepsRows(rows);
    if o != [] {
      assert o[0] in o;
    }
  }

  /** A row newer than the whole table enters every feed it belongs to at the top. */
  lemma NewestRowComesFirst(row: Post, rows: seq<Post>, authors: set<Uuid>)
    requires row.author in authors
    requires forall r | r in rows :: r.updated < row.updated
    ensures Selected([row] + rows, authors)
         == [row] + Take(OrderByUpdatedDesc(ByAuthors(rows, authors)), FEED_LENGTH - 1)
  {
    ByAuthorsOfPrepended(row, rows, authors);
    OrderOfPrependedNewest(row, ByAuthors(rows, authors));
    TakeOfPrepended(row, OrderByUpdatedDesc(ByAuthors(rows, authors)), FEED_LENGTH - 1);
  }

  // ---- storage order, and leaving authors out ----------------------------------------------

  lemma {:induction false} ByAuthorsCounts(rows: seq<Post>, authors: set<Uuid>, p: Post)
    ensures multiset(ByAuthors(rows, authors))[p] == if p.author in authors then multiset(rows)[p] else 0
  {
    if rows == [] {
    } else {
      assert rows == [rows[0]] + rows[1..];
      ByAuthorsCounts(rows[1..], authors, p);
    }
  }

  lemma {:induction false} ByAuthorsKeepsOrder(s: seq<Post>, authors: set<Uuid>)
    requires NewestFirst(s)
    ensures NewestFirst(ByAuthors(s, authors))
  {
    if s == [] {
    } else {
      ByAuthorsKeepsOrder(s[1..], authors);
      forall x | x in ByAuthors(s[1..], authors) ensures !Newer(x, s[0]) {
        assert x in s[1..];
      }
    }
  }

  lemma {:induction false} ByAuthorsUnique(s: seq<Post>, authors: set<Uuid>)
    requires UniqueIds(s)
    ensures UniqueIds(ByAuthors(s, authors))
  {
    if s == [] {
    } else {
      ByAuthorsUnique(s[1..], authors);
      forall x | x in ByAuthors(s[1..], authors) ensures x.id != s[0].id {
        assert x in s[1..];
        var i :| 0 <= i < |s[1..]| && s[1..][i] == x;
        assert s[i + 1].id != s[0].id;
      }
    }
  }

  lemma {:induction false} InsertUnique(p: Post, s: seq<Post>)
    requires UniqueIds(s) && forall q | q in s :: q.id != p.id
    ensures UniqueIds(Insert(p, s))
  {
    if s == [] || Newer(p, s[0]) {
    } else {
      InsertUnique(p, s[1..]);
      InsertKeepsRows(p, s[1..]);
      var rest := Insert(p, s[1..]);
      forall x | x in rest ensures x.id != s[0].id {
        assert x in multiset(rest);
        assert x == p || x in s[1..];
      }
    }
  }

  lemma {:induction false} OrderUnique(rows: seq<Post>)
    requires UniqueIds(rows)
    ensures UniqueIds(OrderByUpdatedDesc(rows))
  {
    if rows == [] {
    } else {
      OrderUnique(rows[1..]);
      OrderKeepsRows(rows[1..]);
      forall q | q in rows[1..] ensures q.id != rows[0].id {
        var i :| 0 <= i < |rows[1..]| && rows[1..][i] == q;
        assert rows[i + 1].id != rows[0].id;
      }
      InsertUnique(rows[0], OrderByUpdatedDesc(rows[1..]));
    }
  }

  /** The order in which the table stores its rows cannot show in a feed. */
  lemma SelectedIgnoresStorageOrder(rows: seq<Post>, other: seq<Post>, authors: set<Uuid>)
    requires UniqueIds(rows) && multiset(rows) == multiset(other)
    ensures Selected(rows, authors) == Selected(other, authors)
  {
    var a, b := ByAuthors(rows, authors), ByAuthors(other, authors);
    OrderKeepsRows(a);
    OrderKeepsRows(b);
    OrderIsNewestFirst(a);
    OrderIsNewestFirst(b);
    ByAuthorsUnique(rows, authors);
    OrderUnique(a);
    forall p ensures multiset(a)[p] == multiset(b)[p] {
      ByAuthorsCounts(rows, authors, p);
      ByAuthorsCounts(other, authors, p);
    }
    OrderIsUnique(OrderByUpdatedDesc(a), OrderByUpdatedDesc(b));
  }

  /** A row that is newer than all others heads every feed it belongs to. */
  lemma NewestRowHeadsFeed(rows: seq<Post>, authors: set<Uuid>, row: Post)
    requires row in rows && row.author in authors
    requires forall r | r in rows && r != row :: r.updated < row.updated
    ensures Selected(rows, authors) != [] && Selected(rows, authors)[0] == row
  {
    var r := Selected(rows, authors);
    SelectedIsNewestByAuthors(rows, authors);
    assert row in ByAuthors(rows, authors);
    assert r[0] in rows && (row !in r ==> !Newer(row, r[0]));
    if row in r {
      var j :| 0 <= j < |r| && r[j] == row;
      assert j == 0 || !Newer(r[j], r[0]);
    }
  }
}
