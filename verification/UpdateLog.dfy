// The append-only log of position updates of a pool, read as "most recently updated, each
// position once" (lookupLastNTimeNonUnique in cache/rwMap.go, MaterializePosition in
// cache/transactors.go), and the update times it is read against (model/position.go).
module UpdateLog {
  import opened Basics

  type Id = int

  // A liquidity change of a position.
  datatype Change = Change(id: Id, time: int, isMint: bool, tx: int, positionType: int)

  // What a position's tracker knows.
  datatype Tracker = Tracker(timeFirstMint: int, latestUpdateTime: int, lastMintTx: int, firstMintTx: int, positionType: int)

  const NEW_TRACKER := Tracker(0, 0, 0, 0, 0)

  function Updated(p: Tracker, l: Change): Tracker {
    var q :=
      if p.latestUpdateTime == 0 || l.time < p.latestUpdateTime then
        p.(timeFirstMint := l.time, firstMintTx := if l.isMint then l.tx else p.firstMintTx)
      else p;
    var r :=
      if l.time > q.latestUpdateTime then
        q.(latestUpdateTime := l.time, lastMintTx := if l.isMint then l.tx else q.lastMintTx)
      else q;
    r.(positionType := l.positionType)
  }

  function TrackerOf(es: seq<Change>, id: Id): Tracker {
    if es == [] then NEW_TRACKER
    else
      var p, l := TrackerOf(es[..|es| - 1], id), es[|es| - 1];
      if l.id == id then Updated(p, l) else p
  }

  predicate TimeOrdered(es: seq<Change>) {
    es == [] ||
    (es[|es| - 1].time > 0 && (|es| > 1 ==> es[|es| - 2].time <= es[|es| - 1].time) && TimeOrdered(es[..|es| - 1]))
  }

  // The changes of one position.
  function ChangesOf(es: seq<Change>, id: Id): seq<Change> {
    if es == [] then []
    else
      var rest, l := ChangesOf(es[..|es| - 1], id), es[|es| - 1];
      if l.id == id then rest + [l] else rest
  }

  // In a time-ordered run a tracker's times are those of its position's first and last change.
  lemma {:induction false} TrackerTimes(es: seq<Change>, id: Id)
    requires TimeOrdered(es)
    ensures var p, cs := TrackerOf(es, id), ChangesOf(es, id);
      if cs == [] then p.timeFirstMint == 0 && p.latestUpdateTime == 0
      else p.timeFirstMint == cs[0].time && p.latestUpdateTime == cs[|cs| - 1].time > 0
    ensures es != [] ==> TrackerOf(es, id).latestUpdateTime <= es[|es| - 1].time
  {
    if es != [] {
      var init := es[..|es| - 1];
      if init != [] { assert init[|init| - 1] == es[|es| - 2]; }
      TrackerTimes(init, id);
    }
  }

  // A mint later than all changes of its position before it.
  predicate LaterMint(cs: seq<Change>, k: int)
    requires 0 <= k < |cs|
  {
    cs[k].isMint && (k == 0 || cs[k - 1].time < cs[k].time)
  }

  // ... and its transactions those of its first change, if that is a mint, and of its last mint that
  // came later than what was before it; its type is that of the last change.
  lemma {:induction false} TrackerTxs(es: seq<Change>, id: Id)
    requires TimeOrdered(es)
    ensures var p, cs := TrackerOf(es, id), ChangesOf(es, id);
      && p.firstMintTx == (if cs != [] && cs[0].isMint then cs[0].tx else 0)
      && (cs != [] ==> p.positionType == cs[|cs| - 1].positionType)
      && (forall k :: 0 <= k < |cs| && LaterMint(cs, k) && (forall j :: k < j < |cs| ==> !LaterMint(cs, j)) ==> p.lastMintTx == cs[k].tx)
      && ((forall k :: 0 <= k < |cs| ==> !LaterMint(cs, k)) ==> p.lastMintTx == 0)
  {
    if es != [] {
      var init, l := es[..|es| - 1], es[|es| - 1];
      TrackerTxs(init, id);
      TrackerTimes(init, id);
      TrackerTimes(es, id);
      if l.id == id {
        TxsNext(TrackerOf(init, id), ChangesOf(init, id), l);
      }
    }
  }

  lemma TxsNext(p: Tracker, cs: seq<Change>, l: Change)
    requires l.time > 0
    requires if cs == [] then p.latestUpdateTime == 0 else p.latestUpdateTime == cs[|cs| - 1].time && 0 < cs[|cs| - 1].time <= l.time
    requires p.firstMintTx == (if cs != [] && cs[0].isMint then cs[0].tx else 0)
    requires forall k :: 0 <= k < |cs| && LaterMint(cs, k) && (forall j :: k < j < |cs| ==> !LaterMint(cs, j)) ==> p.lastMintTx == cs[k].tx
    requires (forall k :: 0 <= k < |cs| ==> !LaterMint(cs, k)) ==> p.lastMintTx == 0
    ensures var q, next := Updated(p, l), cs + [l];
      && q.firstMintTx == (if next[0].isMint then next[0].tx else 0)
      && q.positionType == l.positionType
      && (forall k :: 0 <= k < |next| && LaterMint(next, k) && (forall j :: k < j < |next| ==> !LaterMint(next, j)) ==> q.lastMintTx == next[k].tx)
      && ((forall k :: 0 <= k < |next| ==> !LaterMint(next, k)) ==> q.lastMintTx == 0)
  {
    var next := cs + [l];
    assert forall k :: 0 <= k < |cs| ==> (LaterMint(next, k) <==> LaterMint(cs, k));
    assert LaterMint(next, |cs|) <==> l.isMint && l.time > p.latestUpdateTime;
  }

  lemma {:induction false} ChangesAre(es: seq<Change>, id: Id)
    ensures forall l :: l in ChangesOf(es, id) <==> l in es && l.id == id
  {
    if es != [] {
      ChangesAre(es[..|es| - 1], id);
      assert es == es[..|es| - 1] + [es[|es| - 1]];
    }
  }

  // A late change that is older than the latest one, but not than the first, overwrites the time
  // of the first mint all the same.
  lemma FirstMintMovesExactly(p: Tracker, l: Change)
    requires 0 < p.timeFirstMint <= p.latestUpdateTime && l.time > 0
    ensures Updated(p, l).latestUpdateTime == if l.time > p.latestUpdateTime then l.time else p.latestUpdateTime
    ensures Updated(p, l).timeFirstMint == (if l.time < p.timeFirstMint then l.time else p.timeFirstMint) <==>
      l.time <= p.timeFirstMint || l.time >= p.latestUpdateTime
  {
  }

  class PositionTracker {
    var timeFirstMint: int
    var latestUpdateTime: int
    var lastMintTx: int
    var firstMintTx: int
    var positionType: int

    function View(): Tracker
      reads this
    {
      Tracker(timeFirstMint, latestUpdateTime, lastMintTx, firstMintTx, positionType)
    }

    constructor ()
      ensures View() == NEW_TRACKER
    {
      timeFirstMint, latestUpdateTime, lastMintTx, firstMintTx, positionType := 0, 0, 0, 0, 0;
    }

    method UpdatePosition(l: Change)
      modifies this
      ensures View() == Updated(old(View()), l)
    {
      if latestUpdateTime == 0 || l.time < latestUpdateTime {
        timeFirstMint := l.time;
        if l.isMint {
          firstMintTx := l.tx;
        }
      }
      if l.time > latestUpdateTime {
        latestUpdateTime := l.time;
        if l.isMint {
          lastMintTx := l.tx;
        }
      }
      positionType := l.positionType;
    }
  }

  // ---------------------------------------------------------------------------------------------
  // The log

  function Log(es: seq<Change>): (log: seq<Id>)
    ensures |log| == |es|
  {
    if es == [] then [] else Log(es[..|es| - 1]) + [es[|es| - 1].id]
  }

  // The unseen positions of a log, by their last occurrence, newest first.
  function Recent(log: seq<Id>, seen: set<Id>): seq<Id> {
    if log == [] then []
    else
      var x := log[|log| - 1];
      if x in seen then Recent(log[..|log| - 1], seen) else [x] + Recent(log[..|log| - 1], seen + {x})
  }

  lemma {:induction false} RecentMembers(log: seq<Id>, seen: set<Id>, x: Id)
    ensures x in Recent(log, seen) <==> x in log && x !in seen
  {
    if log != [] {
      var init, last := log[..|log| - 1], log[|log| - 1];
      assert log == init + [last];
      RecentMembers(init, if last in seen then seen else seen + {last}, x);
    }
  }

  // A position comes once.
  lemma {:induction false} RecentIsDistinct(log: seq<Id>, seen: set<Id>)
    ensures NoneTwice(Recent(log, seen))
  {
    hide NoneTwice;
    NothingTwice();
    if log != [] {
      var init, last := log[..|log| - 1], log[|log| - 1];
      if last in seen {
        RecentIsDistinct(init, seen);
      } else {
        RecentIsDistinct(init, seen + {last});
        RecentMembers(init, seen + {last}, last);
        NoneTwiceCons(last, Recent(init, seen + {last}));
      }
    }
  }

  lemma NothingTwice()
    ensures NoneTwice<Id>([])
  {
  }

  // Newest first, by the current update times.
  predicate NewestFirst(ids: seq<Id>, es: seq<Change>) {
    |ids| <= 1 ||
    (TrackerOf(es, ids[0]).latestUpdateTime >= TrackerOf(es, ids[1]).latestUpdateTime && NewestFirst(ids[1..], es))
  }

  // In a time-ordered run the last occurrences in the log are in the order of the update times.
  lemma {:induction false} RecentIsNewestFirst(es: seq<Change>, seen: set<Id>)
    requires TimeOrdered(es)
    ensures NewestFirst(Recent(Log(es), seen), es)
  {
    if es != [] {
      var init, l := es[..|es| - 1], es[|es| - 1];
      assert Log(es)[..|es| - 1] == Log(init);
      var next := if l.id in seen then seen else seen + {l.id};
      var rest := Recent(Log(init), next);
      RecentIsNewestFirst(init, next);
      RecentMembers(Log(init), next, l.id);
      OthersKeepTimes(es, rest);
      if rest != [] {
        TrackerTimes(es, rest[0]);
        TrackerTimes(es, l.id);
      }
    }
  }

  lemma {:induction false} OthersKeepTimes(es: seq<Change>, ids: seq<Id>)
    requires es != [] && es[|es| - 1].id !in ids && NewestFirst(ids, es[..|es| - 1])
    ensures NewestFirst(ids, es)
  {
    if |ids| > 1 {
      OthersKeepTimes(es, ids[1..]);
      assert ids[0] in ids && ids[1] in ids;
    }
  }

  // ---------------------------------------------------------------------------------------------
  // Reading the log

  type Times = map<Id, int>

  function TimeOf(times: Times, id: Id): int {
    if id in times then times[id] else 0
  }

  // Of positions in this order, those in the window up to the mth, as long as none is before it.
  function Collect(ids: seq<Id>, times: Times, afterTime: int, beforeTime: int, m: nat): (r: seq<Id>)
    ensures |r| <= m
  {
    if ids == [] || m == 0 then []
    else
      var t := TimeOf(times, ids[0]);
      if t < afterTime then []
      else if t < beforeTime then [ids[0]] + Collect(ids[1..], times, afterTime, beforeTime, m - 1)
      else Collect(ids[1..], times, afterTime, beforeTime, m)
  }

  // The positions such a reading looks at: the first one before the window is looked at too.
  function Looked(ids: seq<Id>, times: Times, afterTime: int, beforeTime: int, m: nat): set<Id> {
    if ids == [] || m == 0 then {}
    else
      var t := TimeOf(times, ids[0]);
      if t < afterTime then {ids[0]}
      else {ids[0]} + Looked(ids[1..], times, afterTime, beforeTime, if t < beforeTime then m - 1 else m)
  }

  predicate Descending(ids: seq<Id>, times: Times) {
    |ids| <= 1 || (TimeOf(times, ids[0]) >= TimeOf(times, ids[1]) && Descending(ids[1..], times))
  }

  lemma {:induction false} HeadIsNewest(ids: seq<Id>, times: Times, x: Id)
    requires Descending(ids, times) && x in ids
    ensures TimeOf(times, x) <= TimeOf(times, ids[0])
  {
    if x != ids[0] { HeadIsNewest(ids[1..], times, x); }
  }

  lemma {:induction false} CollectMembers(ids: seq<Id>, times: Times, afterTime: int, beforeTime: int, m: nat, x: Id)
    requires x in Collect(ids, times, afterTime, beforeTime, m)
    ensures x in ids && afterTime <= TimeOf(times, x) < beforeTime && x in Looked(ids, times, afterTime, beforeTime, m)
  {
    var t := TimeOf(times, ids[0]);
    if t < beforeTime {
      if x != ids[0] { CollectMembers(ids[1..], times, afterTime, beforeTime, m - 1, x); }
    } else {
      CollectMembers(ids[1..], times, afterTime, beforeTime, m, x);
    }
  }

  lemma {:induction false} CollectDistinct(ids: seq<Id>, times: Times, afterTime: int, beforeTime: int, m: nat)
    requires NoneTwice(ids)
    ensures NoneTwice(Collect(ids, times, afterTime, beforeTime, m))
  {
    hide NoneTwice;
    NothingTwice();
    if ids != [] && m > 0 && TimeOf(times, ids[0]) >= afterTime {
      NoneTwiceRest(ids);
      if TimeOf(times, ids[0]) < beforeTime {
        var rest := Collect(ids[1..], times, afterTime, beforeTime, m - 1);
        CollectDistinct(ids[1..], times, afterTime, beforeTime, m - 1);
        NoneTwiceCons(ids[0], rest);
        if ids[0] in rest {
          CollectMembers(ids[1..], times, afterTime, beforeTime, m - 1, ids[0]);
        }
      } else {
        CollectDistinct(ids[1..], times, afterTime, beforeTime, m);
      }
    }
  }

  lemma {:induction false} DescendingRest(ids: seq<Id>, times: Times)
    requires Descending(ids, times) && ids != []
    ensures Descending(ids[1..], times)
  {
  }

  lemma {:induction false} DescendingCons(x: Id, ids: seq<Id>, times: Times)
    requires Descending(ids, times) && (ids != [] ==> TimeOf(times, x) >= TimeOf(times, ids[0]))
    ensures Descending([x] + ids, times)
  {
    assert ([x] + ids)[1..] == ids;
  }

  lemma {:induction false} CollectDescends(ids: seq<Id>, times: Times, afterTime: int, beforeTime: int, m: nat)
    requires Descending(ids, times)
    ensures Descending(Collect(ids, times, afterTime, beforeTime, m), times)
  {
    hide Descending;
    if ids == [] || m == 0 || TimeOf(times, ids[0]) < afterTime {
      NothingDescends(times);
    } else {
      DescendingRest(ids, times);
      if TimeOf(times, ids[0]) < beforeTime {
        var rest := Collect(ids[1..], times, afterTime, beforeTime, m - 1);
        CollectDescends(ids[1..], times, afterTime, beforeTime, m - 1);
        if rest != [] {
          CollectMembers(ids[1..], times, afterTime, beforeTime, m - 1, rest[0]);
          HeadIsNewest(ids, times, rest[0]);
        }
        DescendingCons(ids[0], rest, times);
      } else {
        CollectDescends(ids[1..], times, afterTime, beforeTime, m);
      }
    }
  }

  lemma {:induction false} NothingDescends(times: Times)
    ensures Descending([], times)
  {
  }

  // Nothing newer is left out: whatever is in the window is collected, or m others are that are
  // as new.
  lemma {:induction false} CollectIsNewest(ids: seq<Id>, times: Times, afterTime: int, beforeTime: int, m: nat, x: Id)
    requires Descending(ids, times) && x in ids && afterTime <= TimeOf(times, x) < beforeTime
    requires x !in Collect(ids, times, afterTime, beforeTime, m)
    ensures var r := Collect(ids, times, afterTime, beforeTime, m);
      |r| == m && forall y :: y in r ==> TimeOf(times, y) >= TimeOf(times, x)
  {
    if m > 0 {
      HeadIsNewest(ids, times, x);
      if TimeOf(times, ids[0]) < beforeTime {
        CollectIsNewest(ids[1..], times, afterTime, beforeTime, m - 1, x);
      } else {
        CollectIsNewest(ids[1..], times, afterTime, beforeTime, m, x);
      }
    }
  }

  // All positions in the window, and the first n of some.
  function InWindow(ids: seq<Id>, times: Times, afterTime: int, beforeTime: int): seq<Id> {
    if ids == [] then []
    else
      (if afterTime <= TimeOf(times, ids[0]) < beforeTime then [ids[0]] else []) +
      InWindow(ids[1..], times, afterTime, beforeTime)
  }

  function FirstN(ids: seq<Id>, n: nat): seq<Id> {
    if |ids| <= n then ids else ids[..n]
  }

  lemma {:induction false} NoneInWindow(ids: seq<Id>, times: Times, afterTime: int, beforeTime: int)
    requires Descending(ids, times) && (ids != [] ==> TimeOf(times, ids[0]) < afterTime)
    ensures InWindow(ids, times, afterTime, beforeTime) == []
  {
    if ids != [] { NoneInWindow(ids[1..], times, afterTime, beforeTime); }
  }

  // Stopping at the first position before the window loses nothing when positions come newest
  // first.
  lemma {:induction false} CollectIsFirst(ids: seq<Id>, times: Times, afterTime: int, beforeTime: int, m: nat)
    requires Descending(ids, times)
    ensures Collect(ids, times, afterTime, beforeTime, m) == FirstN(InWindow(ids, times, afterTime, beforeTime), m)
  {
    hide FirstN;
    var all := InWindow(ids, times, afterTime, beforeTime);
    if ids == [] || m == 0 {
      FirstNone(all, m);
    } else {
      var t, rest := TimeOf(times, ids[0]), InWindow(ids[1..], times, afterTime, beforeTime);
      if t < afterTime {
        NoneInWindow(ids, times, afterTime, beforeTime);
        FirstNone(all, m);
      } else if t < beforeTime {
        CollectIsFirst(ids[1..], times, afterTime, beforeTime, m - 1);
        FirstCons(ids[0], rest, m);
      } else {
        CollectIsFirst(ids[1..], times, afterTime, beforeTime, m);
        assert all == rest;
      }
    }
  }

  lemma FirstNone(ids: seq<Id>, n: nat)
    ensures ids == [] || n == 0 ==> FirstN(ids, n) == []
  {
  }

  lemma FirstCons(x: Id, ids: seq<Id>, n: nat)
    requires n > 0
    ensures FirstN([x] + ids, n) == [x] + FirstN(ids, n - 1)
  {
  }

  lemma {:induction false} InWindowMembers(ids: seq<Id>, times: Times, afterTime: int, beforeTime: int, x: Id)
    requires x in ids && afterTime <= TimeOf(times, x) < beforeTime
    ensures x in InWindow(ids, times, afterTime, beforeTime)
  {
    if x != ids[0] { InWindowMembers(ids[1..], times, afterTime, beforeTime, x); }
  }

  // The times of a run's trackers.
  ghost predicate Current(times: Times, es: seq<Change>) {
    forall id :: TimeOf(times, id) == TrackerOf(es, id).latestUpdateTime
  }

  lemma {:induction false} NewestFirstDescends(ids: seq<Id>, es: seq<Change>, times: Times)
    requires NewestFirst(ids, es) && Current(times, es)
    ensures Descending(ids, times)
  {
    if |ids| > 1 { NewestFirstDescends(ids[1..], es, times); }
  }

  // After any time-ordered run, what is unseen of its log comes newest first.
  lemma {:induction false} RecentDescends(es: seq<Change>, seen: set<Id>, times: Times)
    requires TimeOrdered(es) && Current(times, es)
    ensures Descending(Recent(Log(es), seen), times)
  {
    RecentIsNewestFirst(es, seen);
    NewestFirstDescends(Recent(Log(es), seen), es, times);
  }

  // After any time-ordered run, reading its log with nothing seen returns positions of the log,
  // each once, in the window, newest first; and none that is left out is newer than one that is
  // returned, nor is any left out unless n were found.
  lemma {:induction false} ReadsMostRecent(es: seq<Change>, times: Times, afterTime: int, beforeTime: int, n: nat)
    requires TimeOrdered(es) && Current(times, es) && n > 0
    ensures var r := Collect(Recent(Log(es), {}), times, afterTime, beforeTime, n);
      && NoneTwice(r) && Descending(r, times) && |r| <= n
      && (forall x :: x in r ==> x in Log(es) && afterTime <= TimeOf(times, x) < beforeTime)
      && (forall x :: x in Log(es) && afterTime <= TimeOf(times, x) < beforeTime && x !in r ==>
            |r| == n && forall y :: y in r ==> TimeOf(times, y) >= TimeOf(times, x))
  {
    hide Collect, Recent, Log;
    var log := Log(es);
    var ids := Recent(log, {});
    var r := Collect(ids, times, afterTime, beforeTime, n);
    RecentDescends(es, {}, times);
    RecentIsDistinct(log, {});
    CollectDistinct(ids, times, afterTime, beforeTime, n);
    CollectDescends(ids, times, afterTime, beforeTime, n);
    forall x | x in r ensures x in log && afterTime <= TimeOf(times, x) < beforeTime {
      CollectMembers(ids, times, afterTime, beforeTime, n, x);
      RecentMembers(log, {}, x);
    }
    forall x | x in log && afterTime <= TimeOf(times, x) < beforeTime && x !in r
      ensures |r| == n && forall y :: y in r ==> TimeOf(times, y) >= TimeOf(times, x)
    {
      RecentMembers(log, {}, x);
      CollectIsNewest(ids, times, afterTime, beforeTime, n, x);
    }
  }

  lemma {:induction false} RecentStep(rows: seq<Id>, i: nat, seen: set<Id>)
    requires i < |rows|
    ensures Recent(rows[..i + 1], seen) ==
      if rows[i] in seen then Recent(rows[..i], seen) else [rows[i]] + Recent(rows[..i], seen + {rows[i]})
  {
    assert rows[..i + 1][..i] == rows[..i];
  }

  // The scan from the end. Every position looked at is marked as seen; a position seen before is
  // passed over. (As with transactions, the limit is looked at after a row is added.)
  method LookupLastNTimeNonUnique(rows: seq<Id>, times: Times, afterTime: int, beforeTime: int, n: nat, seen: set<Id>)
    returns (result: seq<Id>, marked: set<Id>)
    ensures result == Collect(Recent(rows, seen), times, afterTime, beforeTime, Max(n, 1))
    ensures marked == seen + Looked(Recent(rows, seen), times, afterTime, beforeTime, Max(n, 1))
  {
    hide Recent, Collect, Looked, TimeOf, Max;
    result, marked := [], seen;
    ghost var m := Max(n, 1);
    MaxIs(n, 1);
    ghost var all := Collect(Recent(rows, seen), times, afterTime, beforeTime, m);
    ghost var looked := seen + Looked(Recent(rows, seen), times, afterTime, beforeTime, m);
    var i := |rows|;
    assert rows[..i] == rows;
    while i > 0
      invariant 0 <= i <= |rows| && |result| < m
      invariant all == result + Collect(Recent(rows[..i], marked), times, afterTime, beforeTime, m - |result|)
      invariant looked == marked + Looked(Recent(rows[..i], marked), times, afterTime, beforeTime, m - |result|)
    {
      i := i - 1;
      ScanStep(rows, i, marked, times, afterTime, beforeTime, result, m);
      if rows[i] in marked {
        continue;
      }
      marked := marked + {rows[i]};
      var t := TimeOf(times, rows[i]);
      if t >= afterTime && t < beforeTime {
        result := result + [rows[i]];
        if |result| >= n {
          NothingMore(Recent(rows[..i], marked), times, afterTime, beforeTime);
          return;
        }
      }
      if t < afterTime {
        return;
      }
    }
    NoneRecent(rows[..0], marked, times, afterTime, beforeTime, m - |result|);
  }

  lemma {:induction false} NothingMore(ids: seq<Id>, times: Times, afterTime: int, beforeTime: int)
    ensures Collect(ids, times, afterTime, beforeTime, 0) == [] && Looked(ids, times, afterTime, beforeTime, 0) == {}
  {
  }

  lemma {:induction false} NoneRecent(rows: seq<Id>, seen: set<Id>, times: Times, afterTime: int, beforeTime: int, m: nat)
    requires rows == []
    ensures Collect(Recent(rows, seen), times, afterTime, beforeTime, m) == []
    ensures Looked(Recent(rows, seen), times, afterTime, beforeTime, m) == {}
  {
  }

  // One row of the scan, the result being what was found so far.
  lemma ScanStep(rows: seq<Id>, i: nat, marked: set<Id>, times: Times, afterTime: int, beforeTime: int,
          result: seq<Id>, m: nat)
    requires i < |rows| && |result| < m
    ensures var ids, x := Recent(rows[..i + 1], marked), rows[i];
      var t, rest := TimeOf(times, x), Recent(rows[..i], marked + {x});
      var next := if afterTime <= t < beforeTime then result + [x] else result;
      if x in marked then ids == Recent(rows[..i], marked)
      else if t < afterTime then
        && result + Collect(ids, times, afterTime, beforeTime, m - |result|) == result
        && marked + Looked(ids, times, afterTime, beforeTime, m - |result|) == marked + {x}
      else
        && result + Collect(ids, times, afterTime, beforeTime, m - |result|)
          == next + Collect(rest, times, afterTime, beforeTime, m - |next|)
        && marked + Looked(ids, times, afterTime, beforeTime, m - |result|)
          == marked + {x} + Looked(rest, times, afterTime, beforeTime, m - |next|)
  {
    hide Recent, Collect, Looked, TimeOf;
    var x := rows[i];
    var rest := Recent(rows[..i], marked + {x});
    RecentStep(rows, i, marked);
    if x !in marked {
      var t, k := TimeOf(times, x), m - |result|;
      LookedStep(x, rest, times, afterTime, beforeTime, k);
      if t < afterTime {
        assert result + [] == result;
      } else {
        var next := if t < beforeTime then k - 1 else k;
        Regrouped(result, if t < beforeTime then [x] else [], Collect(rest, times, afterTime, beforeTime, next));
        assert marked + ({x} + Looked(rest, times, afterTime, beforeTime, next))
          == marked + {x} + Looked(rest, times, afterTime, beforeTime, next);
        assert t >= beforeTime ==> result + [] == result;
      }
    }
  }

  lemma Regrouped(a: seq<Id>, b: seq<Id>, c: seq<Id>)
    ensures a + (b + c) == a + b + c
  {
  }

  lemma LookedStep(x: Id, rest: seq<Id>, times: Times, afterTime: int, beforeTime: int, m: nat)
    requires m > 0
    ensures var t, ids := TimeOf(times, x), [x] + rest;
      if t < afterTime then
        Collect(ids, times, afterTime, beforeTime, m) == [] && Looked(ids, times, afterTime, beforeTime, m) == {x}
      else
        var k := if t < beforeTime then m - 1 else m;
        && Collect(ids, times, afterTime, beforeTime, m)
          == (if t < beforeTime then [x] else []) + Collect(rest, times, afterTime, beforeTime, k)
        && Looked(ids, times, afterTime, beforeTime, m) == {x} + Looked(rest, times, afterTime, beforeTime, k)
  {
    hide TimeOf;
    assert ([x] + rest)[1..] == rest;
  }
}
