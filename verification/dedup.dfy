/** The one-post-per-user mode: `dedup_by` on the author over the sorted rows. */
module Dedup {
  import opened Posts

  /** Keeps the first post of every run of neighbours by one author. */
  function Deduped(s: seq<Post>): (r: seq<Post>)
    ensures |r| <= |s|
    ensures s != [] ==> r != [] && r[|r| - 1].author == s[|s| - 1].author
  {
    if s == [] then []
    else
      var last := |s| - 1;
      if last > 0 && s[last - 1].author == s[last].author then Deduped(s[..last])
      else Deduped(s[..last]) + [s[last]]
  }

  /** `Vec::dedup_by`, in place: kept elements move forward over the removed ones. */
  method DedupInPlace(a: array<Post>) returns (kept: nat)
    modifies a
    ensures kept <= a.Length
    ensures a[..kept] == Deduped(old(a[..]))
  {
    ghost var rows := a[..];
    kept := 0;
    var read := 0;
    while read < a.Length
      invariant kept <= read <= a.Length
      invariant forall k | read <= k < a.Length :: a[k] == rows[k]
      invariant a[..kept] == Deduped(rows[..read])
    {
      DedupedNext(rows, read);
      ghost var front := a[..kept];
      if kept == 0 || a[kept - 1].author != a[read].author {
        a[kept] := a[read];
        kept := kept + 1;
        assert a[..kept] == front + [rows[read]];
      }
      read := read + 1;
    }
    assert rows[..read] == rows;
  }

  /** One step of the scan: the row at position `read` is kept unless the last kept row is
      by the same author. */
  lemma DedupedNext(rows: seq<Post>, read: nat)
    requires read < |rows|
    ensures var front := Deduped(rows[..read]);
            Deduped(rows[..read + 1]) ==
              if front == [] || front[|front| - 1].author != rows[read].author
              then front + [rows[read]] else front
  {
    assert rows[..read + 1][..read] == rows[..read];
  }

  // ---- what is kept ---------------------------------------------------------------------

  /** Position i starts a run: its predecessor, if any, is by another author. */
  predicate StartsRun(s: seq<Post>, i: nat)
    requires i < |s|
  {
    i == 0 || s[i - 1].author != s[i].author
  }

  /** The positions that start a run, in order. */
  function RunStarts(s: seq<Post>): seq<nat> {
    if s == [] then []
    else
      var last := |s| - 1;
      RunStarts(s[..last]) + (if StartsRun(s, last) then [last] else [])
  }

  lemma StartsRunInPrefix(s: seq<Post>, n: nat, i: nat)
    requires i < n <= |s|
    ensures StartsRun(s[..n], i) == StartsRun(s, i)
  {
  }

  lemma {:induction false} RunStartsStartRuns(s: seq<Post>)
    ensures forall h | h in RunStarts(s) :: h < |s| && StartsRun(s, h)
  {
    if s == [] {
    } else {
      var last := |s| - 1;
      RunStartsStartRuns(s[..last]);
      forall h | h in RunStarts(s[..last]) ensures h < |s| && StartsRun(s, h) {
        StartsRunInPrefix(s, last, h);
      }
    }
  }

  lemma {:induction false} RunStartsIncrease(s: seq<Post>)
    ensures forall j, k | 0 <= j < k < |RunStarts(s)| :: RunStarts(s)[j] < RunStarts(s)[k]
  {
    if s == [] {
    } else {
      var last := |s| - 1;
      RunStartsIncrease(s[..last]);
      RunStartsStartRuns(s[..last]);
      var r := RunStarts(s[..last]);
      forall j | 0 <= j < |r| ensures r[j] < last {
        assert r[j] in r;
      }
    }
  }

  lemma {:induction false} RunStartsAreAll(s: seq<Post>, i: nat)
    requires i < |s| && StartsRun(s, i)
    ensures i in RunStarts(s)
  {
    var last := |s| - 1;
    if i < last {
      StartsRunInPrefix(s, last, i);
      RunStartsAreAll(s[..last], i);
    }
  }

  /** The run starts are increasing and are exactly the positions that start a run. */
  lemma {:induction false} RunStartsAreExact(s: seq<Post>)
    ensures forall k | 0 <= k < |RunStarts(s)| :: RunStarts(s)[k] < |s| && StartsRun(s, RunStarts(s)[k])
    ensures forall j, k | 0 <= j < k < |RunStarts(s)| :: RunStarts(s)[j] < RunStarts(s)[k]
    ensures forall i: nat | i < |s| && StartsRun(s, i) :: i in RunStarts(s)
  {
    RunStartsStartRuns(s);
    RunStartsIncrease(s);
    assert forall k | 0 <= k < |RunStarts(s)| :: RunStarts(s)[k] in RunStarts(s);
    forall i: nat | i < |s| && StartsRun(s, i) ensures i in RunStarts(s) {
      RunStartsAreAll(s, i);
    }
  }

  /** The result is the subsequence at the run starts: on a newest-first feed that is the
      newest post of every run, and nothing else. */
  lemma {:induction false} DedupKeepsRunStarts(s: seq<Post>)
    ensures |Deduped(s)| == |RunStarts(s)|
    ensures forall k | 0 <= k < |RunStarts(s)| ::
              RunStarts(s)[k] < |s| && Deduped(s)[k] == s[RunStarts(s)[k]]
  {
    if s == [] {
    } else {
      var last := |s| - 1;
      DedupKeepsRunStarts(s[..last]);
    }
  }

  /** Between two consecutive run starts all posts are by the author of the first. */
  lemma RunUpToNextStart(s: seq<Post>, k: nat)
    requires 0 < k < |RunStarts(s)|
    ensures var r := RunStarts(s);
            r[k - 1] < r[k] < |s| && s[r[k] - 1].author == s[r[k - 1]].author
            && s[r[k] - 1].author != s[r[k]].author
  {
    RunStartsAreExact(s);
    var r := RunStarts(s);
    assert r[k - 1] < r[k] && StartsRun(s, r[k]);
    var h := RunStartOf(s, r[k] - 1);
    var j :| 0 <= j < |r| && r[j] == h;
    assert j < k;
    assert r[j] <= r[k - 1];
  }

  lemma {:induction false} DedupLeavesNoNeighbours(s: seq<Post>)
    ensures forall k | 0 < k < |Deduped(s)| :: Deduped(s)[k - 1].author != Deduped(s)[k].author
  {
    DedupKeepsRunStarts(s);
    forall k | 0 < k < |Deduped(s)| ensures Deduped(s)[k - 1].author != Deduped(s)[k].author {
      RunUpToNextStart(s, k);
    }
  }

  /** The start of the run that position i belongs to. */
  function RunStartOf(s: seq<Post>, i: nat): (h: nat)
    requires i < |s|
    ensures h <= i && StartsRun(s, h)
    ensures forall k | h <= k <= i :: s[k].author == s[i].author
  {
    if StartsRun(s, i) then i else RunStartOf(s, i - 1)
  }

  /** A feed without neighbours by one author is left alone, so a second pass does nothing. */
  lemma {:induction false} DedupOfDistinctNeighbours(s: seq<Post>)
    requires forall k | 0 < k < |s| :: s[k - 1].author != s[k].author
    ensures Deduped(s) == s
  {
    if s == [] {
    } else {
      DedupOfDistinctNeighbours(s[..|s| - 1]);
    }
  }

  lemma {:induction false} DedupIsIdempotent(s: seq<Post>)
    ensures Deduped(Deduped(s)) == Deduped(s)
  {
    DedupLeavesNoNeighbours(s);
    DedupOfDistinctNeighbours(Deduped(s));
  }

  function Authors(s: seq<Post>): set<Uuid> {
    set p | p in s :: p.author
  }

  /** The kept post at the start of the run that position i belongs to. */
  lemma RunStartIsKept(s: seq<Post>, i: nat)
    requires i < |s|
    ensures s[RunStartOf(s, i)] in Deduped(s)
  {
    var h := RunStartOf(s, i);
    DedupKeepsRunStarts(s);
    RunStartsAreAll(s, h);
    var k :| 0 <= k < |RunStarts(s)| && RunStarts(s)[k] == h;
    assert Deduped(s)[k] == s[h];
  }

  lemma {:induction false} DedupKeepsOnlyOld(s: seq<Post>)
    ensures forall p | p in Deduped(s) :: p in s
  {
    DedupKeepsRunStarts(s);
    forall p | p in Deduped(s) ensures p in s {
      var k :| 0 <= k < |Deduped(s)| && Deduped(s)[k] == p;
      assert s[RunStarts(s)[k]] == p;
    }
  }

  lemma DedupKeepsEveryAuthor(s: seq<Post>)
    ensures Authors(Deduped(s)) == Authors(s)
  {
    DedupKeepsOnlyOld(s);
    forall a | a in Authors(s) ensures a in Authors(Deduped(s)) {
      var i :| 0 <= i < |s| && s[i].author == a;
      RunStartIsKept(s, i);
    }
  }

  // ---- one post per author --------------------------------------------------------------

  ghost predicate OnePerAuthor(s: seq<Post>) {
    forall i, j | 0 <= i < j < |s| :: s[i].author != s[j].author
  }

  /** No author's posts are interleaved with another's. */
  ghost predicate AuthorsContiguous(s: seq<Post>) {
    forall i, j, k | 0 <= i < j < k < |s| && s[i].author == s[k].author :: s[j].author == s[i].author
  }

  /** The documentation of the mode promises one post per friend. Removing neighbours keeps
      that promise exactly when no author's posts are interleaved with another author's. */
  lemma OnePerAuthorIffContiguous(s: seq<Post>)
    ensures OnePerAuthor(Deduped(s)) <==> AuthorsContiguous(s)
  {
    if AuthorsContiguous(s) { ContiguousGivesOne(s); }
    if OnePerAuthor(Deduped(s)) { OneNeedsContiguous(s); }
  }

  lemma ContiguousRunStartIsNew(s: seq<Post>, i: nat, k: nat)
    requires AuthorsContiguous(s)
    requires i < k < |s| && StartsRun(s, k)
    ensures s[i].author != s[k].author
  {
    var before := s[k - 1];
    assert before.author != s[k].author;
  }

  lemma ContiguousGivesOne(s: seq<Post>)
    requires AuthorsContiguous(s)
    ensures OnePerAuthor(Deduped(s))
  {
    DedupKeepsRunStarts(s);
    RunStartsAreExact(s);
    var r := RunStarts(s);
    forall a, b | 0 <= a < b < |r| ensures Deduped(s)[a].author != Deduped(s)[b].author {
      ContiguousRunStartIsNew(s, r[a], r[b]);
    }
  }

  lemma OneNeedsContiguous(s: seq<Post>)
    requires OnePerAuthor(Deduped(s))
    ensures AuthorsContiguous(s)
  {
    DedupKeepsRunStarts(s);
    RunStartsAreExact(s);
    var d, r := Deduped(s), RunStarts(s);
    forall i, j, k | 0 <= i < j < k < |s| && s[i].author == s[k].author
      ensures s[j].author == s[i].author
    {
      var hi, hk := RunStartOf(s, i), RunStartOf(s, k);
      assert hi in r && hk in r;
      var a :| 0 <= a < |r| && r[a] == hi;
      var b :| 0 <= b < |r| && r[b] == hk;
      assert d[a].author == d[b].author;
      assert a == b;
    }
  }
}
