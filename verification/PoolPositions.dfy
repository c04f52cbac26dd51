// The most recent positions of a pool (QueryPoolPositions in views/positions.go): pages of the
// update log are read until there are enough results, five at the most.
module PoolPositions {
  import opened Basics
  import opened UpdateLog

  const MAX_PAGES := 5

  // A position as it is shown.
  datatype Position = Position(id: Id, latestUpdateTime: int, firstMintTx: int, concLiq: int, ambientLiq: int)

  type Tracked = map<Id, Position>

  function IsEmpty(p: Position): bool {
    p.ambientLiq == 0 && p.concLiq == 0
  }

  function TimesOf(tracked: Tracked): (times: Times)
    ensures forall id :: id in tracked ==> TimeOf(times, id) == tracked[id].latestUpdateTime
  {
    map id | id in tracked :: tracked[id].latestUpdateTime
  }

  // How many more updates than results are asked for.
  function EmptyMult(nResults: nat, omitEmpty: bool): nat {
    if omitEmpty then 2 else if nResults > 200 then 2 else if nResults < 10 then 50 else 20
  }

  // ---------------------------------------------------------------------------------------------
  // The specification, page by page

  // Without a time window a page is the end of the log as it is; with one, the unseen positions
  // in the window.
  function PageOf(rows: seq<Id>, times: Times, k: nat, afterTime: int, beforeTime: int, seen: set<Id>): seq<Id> {
    if afterTime == 0 && beforeTime == 0 then LastN(rows, k)
    else Collect(Recent(rows, seen), times, afterTime, beforeTime, Max(k, 1))
  }

  function SeenAfterPage(rows: seq<Id>, times: Times, k: nat, afterTime: int, beforeTime: int, seen: set<Id>): set<Id> {
    if afterTime == 0 && beforeTime == 0 then seen
    else seen + Looked(Recent(rows, seen), times, afterTime, beforeTime, Max(k, 1))
  }

  datatype Taken = Taken(results: seq<Id>, seen: set<Id>)

  predicate Shown(tracked: Tracked, omitEmpty: bool, x: Id) {
    x in tracked && (!omitEmpty || !IsEmpty(tracked[x]))
  }

  // Going through a page: a page from a window is taken as new, of the end of the log only what
  // was not seen.
  function TakeFrom(page: seq<Id>, isNew: bool, t: Taken, n: nat, tracked: Tracked, omitEmpty: bool): Taken {
    if page == [] then t
    else
      var next := TakeOne(page[0], isNew, t, tracked, omitEmpty);
      if |next.results| >= n then next else TakeFrom(page[1..], isNew, next, n, tracked, omitEmpty)
  }

  function TakeOne(x: Id, isNew: bool, t: Taken, tracked: Tracked, omitEmpty: bool): Taken {
    if x in t.seen && !isNew then t
    else Taken(if Shown(tracked, omitEmpty, x) then t.results + [x] else t.results, t.seen + {x})
  }

  function Pages(rows: seq<Id>, tracked: Tracked, n: nat, omitEmpty: bool, afterTime: int, beforeTime: int, t: Taken,
          left: nat): seq<Id>
    decreases left
  {
    if left == 0 then t.results
    else
      var times, k := TimesOf(tracked), n * EmptyMult(n, omitEmpty);
      var page := PageOf(rows, times, k, afterTime, beforeTime, t.seen);
      var seen := SeenAfterPage(rows, times, k, afterTime, beforeTime, t.seen);
      var next := TakeFrom(page, afterTime != 0 || beforeTime != 0, t.(seen := seen), n, tracked, omitEmpty);
      if |next.results| >= n then next.results[..n]
      else if page == [] then next.results
      else Pages(rows, tracked, n, omitEmpty, afterTime, TimeOf(times, page[|page| - 1]) - 1, next, left - 1)
  }

  // ---------------------------------------------------------------------------------------------
  // No position twice, none outside the window, none too many

  lemma {:induction false} NoneTwicePrefix(ids: seq<Id>, n: nat)
    requires NoneTwice(ids) && n <= |ids|
    ensures NoneTwice(ids[..n])
  {
    if n < |ids| {
      assert ids[..|ids| - 1][..n] == ids[..n];
      NoneTwicePrefix(ids[..|ids| - 1], n);
    } else {
      assert ids[..n] == ids;
    }
  }

  // The query has a time window, and so have all its pages: a page bound of 0 would mean no window,
  // and without a lower bound it takes a position updated at time 1 to get there.
  predicate Windowed(rows: seq<Id>, times: Times, afterTime: int, beforeTime: int) {
    afterTime != 0 || (beforeTime != 0 && forall x :: x in rows ==> TimeOf(times, x) != 1)
  }

  // What is kept from page to page.
  ghost predicate PagingInv(t: Taken, rows: seq<Id>, times: Times, tracked: Tracked, omitEmpty: bool, lo: int,
          hi: int, windowed: bool) {
    && NoneTwice(t.results)
    && (forall x :: x in t.results ==> x in t.seen && x in rows && Shown(tracked, omitEmpty, x))
    && (windowed ==> forall x :: x in t.results ==> lo <= TimeOf(times, x) < hi)
  }

  // A page is fit to be gone through: its positions are in the log and the window, and when it is
  // taken as new none is a result already or comes again.
  ghost predicate PageFits(page: seq<Id>, isNew: bool, t: Taken, rows: seq<Id>, times: Times, lo: int, hi: int,
          windowed: bool) {
    && (forall x :: x in page ==> x in rows && (windowed ==> lo <= TimeOf(times, x) < hi))
    && (isNew ==> NoneTwice(page) && forall x :: x in page ==> x !in t.results)
  }

  lemma TakeOneKeeps(page: seq<Id>, isNew: bool, t: Taken, rows: seq<Id>, times: Times,
          tracked: Tracked, omitEmpty: bool, lo: int, hi: int, windowed: bool)
    requires page != [] && PagingInv(t, rows, times, tracked, omitEmpty, lo, hi, windowed) && PageFits(page, isNew, t, rows, times, lo, hi, windowed)
    ensures var next := TakeOne(page[0], isNew, t, tracked, omitEmpty);
      && PagingInv(next, rows, times, tracked, omitEmpty, lo, hi, windowed)
      && PageFits(page[1..], isNew, next, rows, times, lo, hi, windowed)
  {
    hide Shown, NoneTwice, TimeOf;
    var x, next := page[0], TakeOne(page[0], isNew, t, tracked, omitEmpty);
    assert x in page;
    if isNew { NoneTwiceRest(page); }
    if x !in t.results { NoneTwiceMore(t.results, x); }
    forall y | y in page[1..] ensures y in page {}
  }

  lemma {:induction false} NoneTwiceMore(ids: seq<Id>, x: Id)
    requires NoneTwice(ids) && x !in ids
    ensures NoneTwice(ids + [x])
  {
    assert (ids + [x])[..|ids|] == ids;
  }

  lemma {:induction false} TakeFromKeeps(page: seq<Id>, isNew: bool, t: Taken, n: nat, rows: seq<Id>, times: Times,
          tracked: Tracked, omitEmpty: bool, lo: int, hi: int, windowed: bool)
    requires PagingInv(t, rows, times, tracked, omitEmpty, lo, hi, windowed) && PageFits(page, isNew, t, rows, times, lo, hi, windowed)
    ensures PagingInv(TakeFrom(page, isNew, t, n, tracked, omitEmpty), rows, times, tracked, omitEmpty, lo, hi, windowed)
  {
    hide PagingInv, PageFits, TakeOne;
    if page != [] {
      TakeOneKeeps(page, isNew, t, rows, times, tracked, omitEmpty, lo, hi, windowed);
      TakeFromKeeps(page[1..], isNew, TakeOne(page[0], isNew, t, tracked, omitEmpty), n, rows, times, tracked, omitEmpty, lo, hi, windowed);
    }
  }

  lemma {:induction false} LastNMembers(rows: seq<Id>, n: nat)
    ensures forall x :: x in LastN(rows, n) ==> x in rows
  {
    if rows != [] && n > 0 {
      LastNMembers(rows[..|rows| - 1], n - 1);
    }
  }

  lemma PageIsFit(rows: seq<Id>, times: Times, k: nat, afterTime: int, beforeTime: int, t: Taken,
          tracked: Tracked, omitEmpty: bool, lo: int, hi: int, windowed: bool)
    requires PagingInv(t, rows, times, tracked, omitEmpty, lo, hi, windowed)
    requires windowed ==> lo == afterTime && beforeTime <= hi && (afterTime != 0 || beforeTime != 0)
    ensures var page, seen := PageOf(rows, times, k, afterTime, beforeTime, t.seen), SeenAfterPage(rows, times, k, afterTime, beforeTime, t.seen);
      && PagingInv(t.(seen := seen), rows, times, tracked, omitEmpty, lo, hi, windowed)
      && PageFits(page, afterTime != 0 || beforeTime != 0, t.(seen := seen), rows, times, lo, hi, windowed)
      && (windowed ==> forall x :: x in page ==> TimeOf(times, x) < beforeTime)
  {
    hide Collect, Recent, Looked, LastN, Shown;
    var page := PageOf(rows, times, k, afterTime, beforeTime, t.seen);
    if afterTime == 0 && beforeTime == 0 {
      LastNMembers(rows, k);
    } else {
      var ids := Recent(rows, t.seen);
      RecentIsDistinct(rows, t.seen);
      CollectDistinct(ids, times, afterTime, beforeTime, Max(k, 1));
      forall x | x in page ensures x in rows && x !in t.seen && afterTime <= TimeOf(times, x) < beforeTime {
        CollectMembers(ids, times, afterTime, beforeTime, Max(k, 1), x);
        RecentMembers(rows, t.seen, x);
      }
    }
  }

  // Never more than asked for, no position twice, all of them positions of the log that are to be
  // shown; and if a time window was given, all of them in it.
  lemma {:induction false} PagesAreSound(rows: seq<Id>, tracked: Tracked, n: nat, omitEmpty: bool, afterTime: int,
          beforeTime: int, t: Taken, left: nat, lo: int, hi: int, windowed: bool)
    requires PagingInv(t, rows, TimesOf(tracked), tracked, omitEmpty, lo, hi, windowed) && (|t.results| < n || left > 0 || n == 0 == |t.results|)
    requires windowed ==> lo == afterTime && beforeTime <= hi
    requires windowed ==> Windowed(rows, TimesOf(tracked), afterTime, beforeTime)
    ensures var r := Pages(rows, tracked, n, omitEmpty, afterTime, beforeTime, t, left);
      && |r| <= n && NoneTwice(r)
      && (forall x :: x in r ==> x in rows && Shown(tracked, omitEmpty, x))
      && (windowed ==> forall x :: x in r ==> lo <= TimeOf(TimesOf(tracked), x) < hi)
    decreases left
  {
    hide PageOf, SeenAfterPage, TakeFrom, Shown, TimesOf, EmptyMult, PageFits;
    if left > 0 {
      var times, k := TimesOf(tracked), n * EmptyMult(n, omitEmpty);
      var page := PageOf(rows, times, k, afterTime, beforeTime, t.seen);
      var seen := SeenAfterPage(rows, times, k, afterTime, beforeTime, t.seen);
      var isNew := afterTime != 0 || beforeTime != 0;
      PageIsFit(rows, times, k, afterTime, beforeTime, t, tracked, omitEmpty, lo, hi, windowed);
      PageMembers(page, isNew, t.(seen := seen), rows, times, lo, hi, windowed);
      TakeFromKeeps(page, isNew, t.(seen := seen), n, rows, times, tracked, omitEmpty, lo, hi, windowed);
      var next := TakeFrom(page, isNew, t.(seen := seen), n, tracked, omitEmpty);
      if |next.results| >= n {
        NoneTwicePrefix(next.results, n);
        forall x | x in next.results[..n] ensures x in next.results {}
      } else if page != [] {
        assert page[|page| - 1] in page;
        PagesAreSound(rows, tracked, n, omitEmpty, afterTime, TimeOf(times, page[|page| - 1]) - 1, next, left - 1, lo, hi, windowed);
      }
    }
  }

  lemma PageMembers(page: seq<Id>, isNew: bool, t: Taken, rows: seq<Id>, times: Times, lo: int,
          hi: int, windowed: bool)
    requires PageFits(page, isNew, t, rows, times, lo, hi, windowed)
    ensures forall x :: x in page ==> x in rows
  {
  }

  // ---------------------------------------------------------------------------------------------
  // The query

  function PositionOf(tracked: Tracked, id: Id): Position {
    if id in tracked then tracked[id] else Position(id, 0, 0, 0, 0)
  }

  function Elements(tracked: Tracked, ids: seq<Id>): (ps: seq<Position>)
    ensures |ps| == |ids| && forall i :: 0 <= i < |ids| ==> ps[i] == PositionOf(tracked, ids[i])
  {
    if ids == [] then [] else Elements(tracked, ids[..|ids| - 1]) + [PositionOf(tracked, ids[|ids| - 1])]
  }

  // The recency order of positions.
  predicate Less(a: Position, b: Position) {
    if a.latestUpdateTime != b.latestUpdateTime then a.latestUpdateTime > b.latestUpdateTime
    else if a.firstMintTx != b.firstMintTx then a.firstMintTx > b.firstMintTx
    else if a.concLiq != b.concLiq then a.concLiq > b.concLiq
    else a.ambientLiq > b.ambientLiq
  }

  predicate Sorted(ps: seq<Position>) {
    |ps| <= 1 || (!Less(ps[|ps| - 1], ps[|ps| - 2]) && Sorted(ps[..|ps| - 1]))
  }

  // a comes no later than b when the most recently updated come first, and of those of one time the
  // last minted, and then the largest.
  predicate NoLater(a: Position, b: Position) {
    || a.latestUpdateTime > b.latestUpdateTime
    || (a.latestUpdateTime == b.latestUpdateTime &&
        (|| a.firstMintTx > b.firstMintTx
         || (a.firstMintTx == b.firstMintTx &&
             (a.concLiq > b.concLiq || (a.concLiq == b.concLiq && a.ambientLiq >= b.ambientLiq)))))
  }

  lemma NotLessIsNoLater(a: Position, b: Position)
    ensures !Less(a, b) <==> NoLater(b, a)
  {
  }

  lemma NoLaterTransitive(a: Position, b: Position, c: Position)
    requires NoLater(a, b) && NoLater(b, c)
    ensures NoLater(a, c)
  {
  }

  lemma {:induction false} SortedIs(ps: seq<Position>, i: nat, j: nat)
    requires Sorted(ps) && i < j < |ps|
    ensures NoLater(ps[i], ps[j])
  {
    hide NoLater, Less;
    var init := ps[..|ps| - 1];
    if j < |ps| - 1 {
      SortedIs(init, i, j);
    } else {
      NotLessIsNoLater(ps[j], ps[j - 1]);
      if i < j - 1 {
        SortedIs(init, i, j - 1);
        NoLaterTransitive(ps[i], ps[j - 1], ps[j]);
      }
    }
  }

  // Sorting, as any sorting method would.
  method Sort(ps: seq<Position>) returns (sorted: seq<Position>)
    ensures Sorted(sorted) && multiset(sorted) == multiset(ps)
  {
    hide Less;
    sorted := [];
    for i := 0 to |ps|
      invariant Sorted(sorted) && multiset(sorted) == multiset(ps[..i])
    {
      sorted := Insert(sorted, ps[i]);
      assert ps[..i + 1] == ps[..i] + [ps[i]];
    }
    assert ps[..|ps|] == ps;
  }

  method Insert(ps: seq<Position>, p: Position) returns (sorted: seq<Position>)
    requires Sorted(ps)
    ensures Sorted(sorted) && multiset(sorted) == multiset(ps) + multiset{p}
    ensures sorted != [] && (sorted[|sorted| - 1] == p || (ps != [] && sorted[|sorted| - 1] == ps[|ps| - 1]))
  {
    hide Less, Sorted;
    if |ps| == 0 || !Less(p, ps[|ps| - 1]) {
      SortedAppend(ps, p);
      sorted := ps + [p];
    } else {
      var init, last := ps[..|ps| - 1], ps[|ps| - 1];
      SortedInit(ps);
      LessOneWay(p, last);
      var rest := Insert(init, p);
      SortedAppend(rest, last);
      assert multiset(ps) == multiset(init) + multiset{last} by { assert ps == init + [last]; }
      sorted := rest + [last];
    }
  }

  lemma {:induction false} SortedAppend(ps: seq<Position>, p: Position)
    requires Sorted(ps) && (ps != [] ==> !Less(p, ps[|ps| - 1]))
    ensures Sorted(ps + [p])
  {
    assert (ps + [p])[..|ps|] == ps;
  }

  lemma {:induction false} SortedInit(ps: seq<Position>)
    requires Sorted(ps) && ps != []
    ensures Sorted(ps[..|ps| - 1])
    ensures |ps| > 1 ==> !Less(ps[|ps| - 1], ps[|ps| - 2])
  {
  }

  lemma LessOneWay(a: Position, b: Position)
    requires Less(a, b)
    ensures !Less(b, a)
  {
  }

  // Going through one page of the log.
  method TakePage(page: seq<Id>, isNew: bool, taken: Taken, nResults: nat, tracked: Tracked,
          omitEmpty: bool) returns (next: Taken)
    requires forall x :: x in page ==> x in tracked
    ensures next == TakeFrom(page, isNew, taken, nResults, tracked, omitEmpty)
  {
    var results, hasSeen := taken.results, taken.seen;
    var i := 0;
    assert page[0..] == page;
    while i < |page|
      invariant 0 <= i <= |page|
      invariant TakeFrom(page, isNew, taken, nResults, tracked, omitEmpty)
        == TakeFrom(page[i..], isNew, Taken(results, hasSeen), nResults, tracked, omitEmpty)
    {
      var val := page[i];
      assert page[i..][0] == val && page[i..][1..] == page[i + 1..];
      if val !in hasSeen || isNew {
        hasSeen := hasSeen + {val};
        if !omitEmpty || !IsEmpty(tracked[val]) {
          results := results + [val];
        }
      }
      i := i + 1;
      if |results| >= nResults {
        return Taken(results, hasSeen);
      }
    }
    return Taken(results, hasSeen);
  }

  // The positions as they come off the log. Each of the log's rows is tracked.
  method CollectResults(rows: seq<Id>, tracked: Tracked, nResults: nat, omitEmpty: bool, afterTime: int,
          beforeTime: int) returns (results: seq<Id>)
    requires forall x :: x in rows ==> x in tracked
    ensures results == Pages(rows, tracked, nResults, omitEmpty, afterTime, beforeTime, Taken([], {}), MAX_PAGES)
  {
    hide TakeFrom, EmptyMult, TimesOf, Collect, Looked, LastN, Recent, Pages;
    var before, taken := beforeTime, Taken([], {});
    var times, k := TimesOf(tracked), nResults * EmptyMult(nResults, omitEmpty);
    ghost var all := Pages(rows, tracked, nResults, omitEmpty, afterTime, beforeTime, taken, MAX_PAGES);
    for i := 0 to MAX_PAGES
      invariant all == Pages(rows, tracked, nResults, omitEmpty, afterTime, before, taken, MAX_PAGES - i)
    {
      PagesGoOn(rows, tracked, nResults, omitEmpty, afterTime, before, taken, MAX_PAGES - i);
      var page: seq<Id>, hasSeen := [], taken.seen;
      var isNew := afterTime != 0 || before != 0;
      if afterTime == 0 && before == 0 {
        page := LookupLastN(rows, k);
      } else {
        page, hasSeen := LookupLastNTimeNonUnique(rows, times, afterTime, before, k, taken.seen);
      }
      PageTracked(rows, times, k, afterTime, before, taken.seen);
      taken := TakePage(page, isNew, taken.(seen := hasSeen), nResults, tracked, omitEmpty);
      if |taken.results| >= nResults {
        return taken.results[..nResults];
      } else if |page| == 0 {
        return taken.results;
      } else {
        before := TimeOf(times, page[|page| - 1]) - 1;
      }
    }
    PagesEnd(rows, tracked, nResults, omitEmpty, afterTime, before, taken);
    return taken.results;
  }

  lemma PagesGoOn(rows: seq<Id>, tracked: Tracked, n: nat, omitEmpty: bool, afterTime: int,
          beforeTime: int, t: Taken, left: nat)
    requires left > 0
    ensures var times, k := TimesOf(tracked), n * EmptyMult(n, omitEmpty);
      var page := PageOf(rows, times, k, afterTime, beforeTime, t.seen);
      var seen := SeenAfterPage(rows, times, k, afterTime, beforeTime, t.seen);
      var next := TakeFrom(page, afterTime != 0 || beforeTime != 0, t.(seen := seen), n, tracked, omitEmpty);
      Pages(rows, tracked, n, omitEmpty, afterTime, beforeTime, t, left) ==
        if |next.results| >= n then next.results[..n]
        else if page == [] then next.results
        else Pages(rows, tracked, n, omitEmpty, afterTime, TimeOf(times, page[|page| - 1]) - 1, next, left - 1)
  {
    hide TakeFrom, EmptyMult, TimesOf, PageOf, SeenAfterPage;
  }

  lemma {:induction false} PagesEnd(rows: seq<Id>, tracked: Tracked, n: nat, omitEmpty: bool, afterTime: int,
          beforeTime: int, t: Taken)
    ensures Pages(rows, tracked, n, omitEmpty, afterTime, beforeTime, t, 0) == t.results
  {
  }

  lemma PageTracked(rows: seq<Id>, times: Times, k: nat, afterTime: int, beforeTime: int,
          seen: set<Id>)
    ensures forall x :: x in PageOf(rows, times, k, afterTime, beforeTime, seen) ==> x in rows
  {
    hide Collect, Recent, LastN;
    if afterTime == 0 && beforeTime == 0 {
      LastNMembers(rows, k);
    } else {
      forall x | x in PageOf(rows, times, k, afterTime, beforeTime, seen) ensures x in rows {
        CollectMembers(Recent(rows, seen), times, afterTime, beforeTime, Max(k, 1), x);
        RecentMembers(rows, seen, x);
      }
    }
  }

  // At most nResults positions, none of them twice, sorted by recency.
  method QueryPoolPositions(rows: seq<Id>, tracked: Tracked, nResults: nat, omitEmpty: bool, afterTime: int,
          beforeTime: int)
    returns (results: seq<Position>)
    requires forall x :: x in rows ==> x in tracked
    ensures var ids := Pages(rows, tracked, nResults, omitEmpty, afterTime, beforeTime, Taken([], {}), 5);
      && Sorted(results) && multiset(results) == multiset(Elements(tracked, ids))
      && NoneTwice(ids) && |ids| <= nResults && (forall x :: x in ids ==> x in rows && Shown(tracked, omitEmpty, x))
      && (Windowed(rows, TimesOf(tracked), afterTime, beforeTime) ==>
            forall x :: x in ids ==> afterTime <= TimeOf(TimesOf(tracked), x) < beforeTime)
    ensures |results| <= nResults
    ensures forall i, j :: 0 <= i < j < |results| ==> NoLater(results[i], results[j])
    ensures forall p :: p in results ==>
      && (exists x :: x in rows && p == tracked[x])
      && (omitEmpty ==> p.concLiq != 0 || p.ambientLiq != 0)
      && (afterTime != 0 ==> afterTime <= p.latestUpdateTime < beforeTime)
  {
    hide Pages, TimesOf, NoLater, Less, Sorted;
    var found := CollectResults(rows, tracked, nResults, omitEmpty, afterTime, beforeTime);
    PagesAreSound(rows, tracked, nResults, omitEmpty, afterTime, beforeTime, Taken([], {}), MAX_PAGES,
                  afterTime, beforeTime, Windowed(rows, TimesOf(tracked), afterTime, beforeTime));
    results := Sort(Elements(tracked, found));
    ResultsAre(results, found, rows, tracked, nResults, omitEmpty, afterTime, beforeTime);
  }

  lemma ResultsAre(results: seq<Position>, ids: seq<Id>, rows: seq<Id>, tracked: Tracked, n: nat, omitEmpty: bool,
          afterTime: int, beforeTime: int)
    requires Sorted(results) && multiset(results) == multiset(Elements(tracked, ids)) && |ids| <= n
    requires forall x :: x in ids ==> x in rows && Shown(tracked, omitEmpty, x)
    requires afterTime != 0 ==> forall x :: x in ids ==> afterTime <= TimeOf(TimesOf(tracked), x) < beforeTime
    ensures |results| <= n
    ensures forall i, j :: 0 <= i < j < |results| ==> NoLater(results[i], results[j])
    ensures forall p :: p in results ==>
      && (exists x :: x in rows && x in tracked && p == tracked[x])
      && (omitEmpty ==> p.concLiq != 0 || p.ambientLiq != 0)
      && (afterTime != 0 ==> afterTime <= p.latestUpdateTime < beforeTime)
  {
    hide NoLater, Less, Sorted, TimesOf;
    assert |results| == |multiset(results)| == |multiset(Elements(tracked, ids))| == |ids|;
    forall i, j | 0 <= i < j < |results| ensures NoLater(results[i], results[j]) { SortedIs(results, i, j); }
    forall p | p in results
      ensures exists x :: x in ids && x in tracked && p == tracked[x]
    {
      assert p in multiset(Elements(tracked, ids));
      var k :| 0 <= k < |ids| && Elements(tracked, ids)[k] == p;
      assert ids[k] in ids;
    }
  }
}
