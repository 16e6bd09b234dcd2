/** The query behind the scan-history endpoint: the history collection
    sorted on `timestamp`, newest first, cut to a fixed number of entries. */
module ScanOrder {
  import opened Models

  /** Entries are ordered newest first. */
  ghost predicate NewestFirst(s: seq<ScanEvent>) {
    forall i, j :: 0 <= i < j < |s| ==> s[i].timestamp >= s[j].timestamp
  }

  /** Places `e` into a newest-first sequence; among equal timestamps the
      entries already there stay in front. */
  function Insert(e: ScanEvent, s: seq<ScanEvent>): (r: seq<ScanEvent>)
    requires NewestFirst(s)
    ensures |r| == |s| + 1
    ensures NewestFirst(r)
    ensures multiset(r) == multiset(s) + multiset{e}
  {
    if s == [] || e.timestamp > s[0].timestamp then
      NewestInFront(e, s);
      [e] + s
    else
      var rest := Insert(e, s[1..]);
      KeepHead(s, e, rest);
      [s[0]] + rest
  }

  /** An entry newer than the head of a newest-first sequence may go in front. */
  lemma NewestInFront(e: ScanEvent, s: seq<ScanEvent>)
    requires NewestFirst(s)
    requires s == [] || e.timestamp > s[0].timestamp
    ensures NewestFirst([e] + s)
  {
    forall x | x in s
      ensures e.timestamp >= x.timestamp
    {
      var k :| 0 <= k < |s| && s[k] == x;
    }
    PrependNewest(e, s);
  }

  /** The head of a newest-first sequence stays in front of the tail with an
      entry no newer than it inserted. */
  lemma KeepHead(s: seq<ScanEvent>, e: ScanEvent, rest: seq<ScanEvent>)
    requires NewestFirst(s) && s != [] && e.timestamp <= s[0].timestamp
    requires NewestFirst(rest) && multiset(rest) == multiset(s[1..]) + multiset{e}
    ensures NewestFirst([s[0]] + rest)
    ensures multiset([s[0]] + rest) == multiset(s) + multiset{e}
  {
    assert s == [s[0]] + s[1..];
    forall x | x in rest
      ensures s[0].timestamp >= x.timestamp
    {
      assert x in multiset(rest);
      if x != e {
        assert x in multiset(s[1..]);
        var k :| 1 <= k < |s| && s[k] == x;
      }
    }
    PrependNewest(s[0], rest);
  }

  /** An entry no older than anything in a newest-first sequence may go in front. */
  lemma PrependNewest(a: ScanEvent, t: seq<ScanEvent>)
    requires NewestFirst(t)
    requires forall x :: x in t ==> a.timestamp >= x.timestamp
    ensures NewestFirst([a] + t)
  {
    forall i, j | 0 <= i < j < |[a] + t|
      ensures ([a] + t)[i].timestamp >= ([a] + t)[j].timestamp
    {
      if i > 0 {
        assert ([a] + t)[i] == t[i - 1] && ([a] + t)[j] == t[j - 1];
      } else {
        assert ([a] + t)[j] == t[j - 1];
      }
    }
  }

  /** The whole history in newest-first order. */
  function SortNewestFirst(s: seq<ScanEvent>): (r: seq<ScanEvent>)
    ensures |r| == |s|
    ensures NewestFirst(r)
    ensures multiset(r) == multiset(s)
  {
    if s == [] then []
    else
      assert s == [s[0]] + s[1..];
      Insert(s[0], SortNewestFirst(s[1..]))
  }

  /** `find().sort({timestamp: -1}).limit(limit)`: the `limit` newest entries. */
  function Latest(history: seq<ScanEvent>, limit: nat): (r: seq<ScanEvent>)
    ensures |r| == if |history| < limit then |history| else limit
    ensures NewestFirst(r)
    ensures multiset(r) <= multiset(history)
  {
    var sorted := SortNewestFirst(history);
    var k := if |history| < limit then |history| else limit;
    assert sorted == sorted[..k] + sorted[k..];
    sorted[..k]
  }

  /** Every entry the query leaves out is no newer than any entry it returns. */
  lemma LatestIsTop(history: seq<ScanEvent>, limit: nat, e: ScanEvent, x: ScanEvent)
    requires e in multiset(history) - multiset(Latest(history, limit))
    requires x in Latest(history, limit)
    ensures x.timestamp >= e.timestamp
  {
    var sorted := SortNewestFirst(history);
    var k := if |history| < limit then |history| else limit;
    assert Latest(history, limit) == sorted[..k];
    PrefixIsTop(sorted, k, e, x);
  }

  lemma PrefixIsTop(sorted: seq<ScanEvent>, k: nat, e: ScanEvent, x: ScanEvent)
    requires NewestFirst(sorted) && k <= |sorted|
    requires e in multiset(sorted) - multiset(sorted[..k])
    requires x in sorted[..k]
    ensures x.timestamp >= e.timestamp
  {
    assert sorted == sorted[..k] + sorted[k..];
    assert multiset(sorted) == multiset(sorted[..k]) + multiset(sorted[k..]);
    assert e in multiset(sorted[k..]);
    var j :| k <= j < |sorted| && sorted[j] == e;
    var i :| 0 <= i < k && sorted[i] == x;
  }
}
