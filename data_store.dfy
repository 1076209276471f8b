/** The persistent store: append-only saves and the "newest N" query over location logs. */
module Store {
  import opened Models

  /** Newest first: timestamps never increase along `s`. */
  predicate NewestFirstOrder(s: seq<LocationLog>)
  {
    forall i, j :: 0 <= i < j < |s| ==> s[i].timestamp >= s[j].timestamp
  }

  /** Inserts `x` into the newest-first sequence `s`, after every log at least as new as it. */
  function InsertByTime(x: LocationLog, s: seq<LocationLog>): (r: seq<LocationLog>)
    ensures |r| == |s| + 1
    ensures multiset(r) == multiset(s) + multiset{x}
  {
    if s == [] || s[0].timestamp < x.timestamp then [x] + s
    else
      assert s == [s[0]] + s[1..];
      [s[0]] + InsertByTime(x, s[1..])
  }

  lemma {:induction false} InsertKeepsOrder(x: LocationLog, s: seq<LocationLog>)
    requires NewestFirstOrder(s)
    ensures NewestFirstOrder(InsertByTime(x, s))
  {
    if s != [] && s[0].timestamp >= x.timestamp {
      var tail := s[1..];
      var rest := InsertByTime(x, tail);
      InsertKeepsOrder(x, tail);
      forall k | 0 <= k < |rest| ensures s[0].timestamp >= rest[k].timestamp {
        var y := rest[k];
        assert y in multiset(rest);
        if y != x {
          assert y in multiset(tail);
          var j :| 0 <= j < |tail| && tail[j] == y;
          assert s[j + 1] == y;
        }
      }
      var r := [s[0]] + rest;
      assert InsertByTime(x, s) == r;
      forall i, j | 0 <= i < j < |r| ensures r[i].timestamp >= r[j].timestamp {
        if i > 0 {
          assert r[i] == rest[i - 1] && r[j] == rest[j - 1];
        } else {
          assert r[j] == rest[j - 1];
        }
      }
    }
  }

  /** The stored logs sorted by timestamp, newest first (the fetch descriptor's
      `SortDescriptor(\.timestamp, order: .reverse)`). */
  function SortNewestFirst(s: seq<LocationLog>): (r: seq<LocationLog>)
    ensures |r| == |s|
    ensures multiset(r) == multiset(s)
    ensures NewestFirstOrder(r)
  {
    if s == [] then []
    else
      assert s == [s[0]] + s[1..];
      InsertKeepsOrder(s[0], SortNewestFirst(s[1..]));
      InsertByTime(s[0], SortNewestFirst(s[1..]))
  }

  /** The SwiftData container with its location and visit records, in insertion order. */
  class DataStore {
    var locations: seq<LocationLog>
    var visits: seq<VisitLog>

    /** Opens the on-disk container, which holds the logs saved by earlier runs. */
    constructor (persistedLocations: seq<LocationLog>, persistedVisits: seq<VisitLog>)
      ensures locations == persistedLocations && visits == persistedVisits
    {
      locations, visits := persistedLocations, persistedVisits;
    }

    /** Inserts one location log. */
    method SaveLocation(location: LocationLog)
      modifies this
      ensures locations == old(locations) + [location]
      ensures visits == old(visits)
    {
      locations := locations + [location];
    }

    /** Inserts one visit log. */
    method SaveVisit(visit: VisitLog)
      modifies this
      ensures visits == old(visits) + [visit]
      ensures locations == old(locations)
    {
      visits := visits + [visit];
    }

    /** The newest `limit` location logs, newest first; `fetchFails` says whether the context's
        fetch throws, in which case the answer is empty. A negative limit traps in `prefix`. */
    method FetchRecentLogs(fetchFails: bool, limit: int := 100) returns (logs: seq<LocationLog>)
      requires !fetchFails ==> limit >= 0
      ensures fetchFails ==> logs == []
      ensures !fetchFails ==> |logs| == if |locations| <= limit then |locations| else limit
      ensures !fetchFails ==> |logs| <= |locations| && logs == SortNewestFirst(locations)[..|logs|]
      ensures !fetchFails && |locations| <= limit ==> multiset(logs) == multiset(locations)
      ensures NewestFirstOrder(logs)
      ensures multiset(logs) <= multiset(locations)
      ensures forall i, y :: 0 <= i < |logs| && y in multiset(locations) - multiset(logs)
                ==> logs[i].timestamp >= y.timestamp
    {
      if fetchFails {
        return [];
      }
      var all := SortNewestFirst(locations);
      logs := all;
      if |logs| > limit {
        logs := logs[..limit];
      }
      NewestPrefix(all, |logs|);
    }
  }

  /** A prefix of a newest-first sequence holds the newest of its logs. */
  lemma NewestPrefix(all: seq<LocationLog>, n: nat)
    requires n <= |all| && NewestFirstOrder(all)
    ensures multiset(all[..n]) <= multiset(all)
    ensures forall i, y :: 0 <= i < n && y in multiset(all) - multiset(all[..n])
              ==> all[..n][i].timestamp >= y.timestamp
  {
    var newest, rest := all[..n], all[n..];
    assert all == newest + rest;
    assert multiset(all) == multiset(newest) + multiset(rest);
    forall i, y | 0 <= i < n && y in multiset(all) - multiset(newest)
      ensures newest[i].timestamp >= y.timestamp
    {
      assert y in multiset(rest);
      var j :| 0 <= j < |rest| && rest[j] == y;
      assert newest[i] == all[i] && rest[j] == all[n + j];
    }
  }
}
