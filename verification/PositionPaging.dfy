// What the pages of QueryPoolPositions (views/positions.go) reach and what they pass over, when
// positions come off the log newest first, as they do in a time-ordered run.
module PositionPaging {
  import opened Basics
  import opened UpdateLog
  import opened PoolPositions

  // ---------------------------------------------------------------------------------------------
  // What one page leaves for the next

  // Of positions newest first, those below a bound and those before them.
  function Older(ids: seq<Id>, times: Times, bound: int): (r: seq<Id>)
    ensures |r| <= |ids|
  {
    if ids == [] || TimeOf(times, ids[0]) < bound then ids else Older(ids[1..], times, bound)
  }

  function Skipped(ids: seq<Id>, times: Times, bound: int): seq<Id> {
    if ids == [] || TimeOf(times, ids[0]) < bound then [] else [ids[0]] + Skipped(ids[1..], times, bound)
  }

  lemma {:induction false} SkippedThenOlder(ids: seq<Id>, times: Times, bound: int)
    ensures ids == Skipped(ids, times, bound) + Older(ids, times, bound)
    ensures Older(ids, times, bound) == ids <==> ids == [] || TimeOf(times, ids[0]) < bound
  {
    if ids != [] && TimeOf(times, ids[0]) >= bound {
      SkippedThenOlder(ids[1..], times, bound);
    }
  }

  lemma {:induction false} OlderCons(x: Id, ids: seq<Id>, times: Times, bound: int)
    requires TimeOf(times, x) >= bound
    ensures Older([x] + ids, times, bound) == Older(ids, times, bound)
    ensures Skipped([x] + ids, times, bound) == [x] + Skipped(ids, times, bound)
  {
    assert ([x] + ids)[1..] == ids;
  }

  lemma {:induction false} OlderMember(ids: seq<Id>, times: Times, bound: int, x: Id)
    requires x in Older(ids, times, bound)
    ensures x in ids
  {
    SkippedThenOlder(ids, times, bound);
  }

  // What a reading does not look at.
  function RestOf(ids: seq<Id>, times: Times, afterTime: int, beforeTime: int, m: nat): seq<Id> {
    if ids == [] || m == 0 then ids
    else
      var t := TimeOf(times, ids[0]);
      if t < afterTime then ids[1..]
      else RestOf(ids[1..], times, afterTime, beforeTime, if t < beforeTime then m - 1 else m)
  }

  function Without(ids: seq<Id>, s: set<Id>): seq<Id> {
    if ids == [] then [] else (if ids[0] in s then [] else [ids[0]]) + Without(ids[1..], s)
  }

  // Marking positions as seen takes them out and leaves the others in their order.
  lemma {:induction false} RecentWithout(log: seq<Id>, seen: set<Id>, s: set<Id>)
    ensures Recent(log, seen + s) == Without(Recent(log, seen), s)
  {
    if log != [] {
      var init, last := log[..|log| - 1], log[|log| - 1];
      if last in seen {
        RecentWithout(init, seen, s);
      } else {
        var rest := Recent(init, seen + {last});
        RecentWithout(init, seen + {last}, s);
        assert ([last] + rest)[1..] == rest;
        if last in s {
          assert seen + {last} + s == seen + s;
        } else {
          assert seen + {last} + s == seen + s + {last};
        }
      }
    }
  }

  lemma {:induction false} WithoutStranger(ids: seq<Id>, s: set<Id>, x: Id)
    requires x !in ids
    ensures Without(ids, {x} + s) == Without(ids, s)
  {
    if ids != [] {
      assert ids[0] in ids;
      WithoutStranger(ids[1..], s, x);
    }
  }

  lemma {:induction false} WithoutNone(ids: seq<Id>)
    ensures Without(ids, {}) == ids
  {
    if ids != [] { WithoutNone(ids[1..]); }
  }

  lemma {:induction false} WithoutLooked(ids: seq<Id>, times: Times, afterTime: int, beforeTime: int, m: nat)
    requires NoneTwice(ids)
    ensures Without(ids, Looked(ids, times, afterTime, beforeTime, m)) == RestOf(ids, times, afterTime, beforeTime, m)
  {
    hide NoneTwice;
    if ids == [] || m == 0 {
      WithoutNone(ids);
    } else {
      NoneTwiceRest(ids);
      var x, t := ids[0], TimeOf(times, ids[0]);
      if t < afterTime {
        WithoutNone(ids[1..]);
        WithoutStranger(ids[1..], {}, x);
        assert {x} + {} == {x};
      } else {
        var k := if t < beforeTime then m - 1 else m;
        WithoutLooked(ids[1..], times, afterTime, beforeTime, k);
        WithoutStranger(ids[1..], Looked(ids[1..], times, afterTime, beforeTime, k), x);
      }
    }
  }

  // After a page, what is unseen is what its reading did not look at.
  lemma {:induction false} LeftUnseen(rows: seq<Id>, seen: set<Id>, times: Times, afterTime: int, beforeTime: int, m: nat)
    ensures var ids := Recent(rows, seen);
      Recent(rows, seen + Looked(ids, times, afterTime, beforeTime, m)) == RestOf(ids, times, afterTime, beforeTime, m)
  {
    hide Recent, Looked, RestOf, Without;
    var ids := Recent(rows, seen);
    RecentIsDistinct(rows, seen);
    RecentWithout(rows, seen, Looked(ids, times, afterTime, beforeTime, m));
    WithoutLooked(ids, times, afterTime, beforeTime, m);
  }

  lemma {:induction false} RestDescends(ids: seq<Id>, times: Times, afterTime: int, beforeTime: int, m: nat)
    requires Descending(ids, times)
    ensures Descending(RestOf(ids, times, afterTime, beforeTime, m), times)
  {
    if ids != [] && m > 0 && TimeOf(times, ids[0]) >= afterTime {
      RestDescends(ids[1..], times, afterTime, beforeTime, if TimeOf(times, ids[0]) < beforeTime then m - 1 else m);
    }
  }

  // Unfolding the first position.
  lemma {:induction false} WindowCons(ids: seq<Id>, times: Times, afterTime: int, beforeTime: int)
    requires ids != []
    ensures InWindow(ids, times, afterTime, beforeTime) ==
      if afterTime <= TimeOf(times, ids[0]) < beforeTime then [ids[0]] + InWindow(ids[1..], times, afterTime, beforeTime)
      else InWindow(ids[1..], times, afterTime, beforeTime)
  {
  }

  lemma RestCons(ids: seq<Id>, times: Times, afterTime: int, beforeTime: int, m: nat)
    requires ids != [] && m > 0
    ensures RestOf(ids, times, afterTime, beforeTime, m) ==
      if TimeOf(times, ids[0]) < afterTime then ids[1..]
      else RestOf(ids[1..], times, afterTime, beforeTime, if TimeOf(times, ids[0]) < beforeTime then m - 1 else m)
  {
  }

  lemma {:induction false} RestInWindow(ids: seq<Id>, times: Times, afterTime: int, beforeTime: int, m: nat)
    requires Descending(ids, times)
    ensures var W := InWindow(ids, times, afterTime, beforeTime);
      InWindow(RestOf(ids, times, afterTime, beforeTime, m), times, afterTime, beforeTime) == if |W| < m then [] else W[m..]
  {
    if ids == [] || m == 0 {
      assert InWindow(ids, times, afterTime, beforeTime)[0..] == InWindow(ids, times, afterTime, beforeTime);
    } else {
      hide Descending, InWindow, RestOf;
      DescendingRest(ids, times);
      WindowCons(ids, times, afterTime, beforeTime);
      RestCons(ids, times, afterTime, beforeTime, m);
      var t, rest := TimeOf(times, ids[0]), InWindow(ids[1..], times, afterTime, beforeTime);
      if t < afterTime {
        NoneInWindow(ids, times, afterTime, beforeTime);
      } else if t < beforeTime {
        RestInWindow(ids[1..], times, afterTime, beforeTime, m - 1);
        if m - 1 <= |rest| { assert ([ids[0]] + rest)[m..] == rest[m - 1..]; }
      } else {
        RestInWindow(ids[1..], times, afterTime, beforeTime, m);
      }
    }
  }

  lemma {:induction false} WindowMember(ids: seq<Id>, times: Times, afterTime: int, beforeTime: int, x: Id)
    requires x in InWindow(ids, times, afterTime, beforeTime)
    ensures x in ids && afterTime <= TimeOf(times, x) < beforeTime
  {
    if !(afterTime <= TimeOf(times, ids[0]) < beforeTime) || x != ids[0] {
      WindowMember(ids[1..], times, afterTime, beforeTime, x);
    }
  }

  // An earlier end of the window cuts the newest positions off.
  lemma {:induction false} NarrowerWindow(ids: seq<Id>, times: Times, afterTime: int, beforeTime: int, bound: int)
    requires Descending(ids, times) && bound <= beforeTime
    ensures InWindow(ids, times, afterTime, bound) == Older(InWindow(ids, times, afterTime, beforeTime), times, bound)
  {
    if ids != [] {
      hide Descending, InWindow, Older;
      var x, t := ids[0], TimeOf(times, ids[0]);
      var rest := InWindow(ids[1..], times, afterTime, beforeTime);
      DescendingRest(ids, times);
      WindowCons(ids, times, afterTime, beforeTime);
      WindowCons(ids, times, afterTime, bound);
      NarrowerWindow(ids[1..], times, afterTime, beforeTime, bound);
      if afterTime <= t < bound {
        if rest != [] {
          WindowMember(ids[1..], times, afterTime, beforeTime, rest[0]);
          HeadIsNewest(ids, times, rest[0]);
        }
        SkippedThenOlder(rest, times, bound);
        SkippedThenOlder([x] + rest, times, bound);
      } else if afterTime <= t < beforeTime {
        OlderCons(x, rest, times, bound);
      }
    }
  }

  // The window of the page that follows, the bound being one below the time of the last position.
  lemma {:induction false} NextWindow(rows: seq<Id>, seen: set<Id>, times: Times, afterTime: int, beforeTime: int,
          m: nat, bound: int)
    requires Descending(Recent(rows, seen), times) && bound <= beforeTime
    ensures var ids := Recent(rows, seen);
      var W, next := InWindow(ids, times, afterTime, beforeTime), seen + Looked(ids, times, afterTime, beforeTime, m);
      && Descending(Recent(rows, next), times)
      && InWindow(Recent(rows, next), times, afterTime, bound) == if |W| < m then [] else Older(W[m..], times, bound)
  {
    hide Recent, Looked, RestOf, InWindow, Descending;
    var ids := Recent(rows, seen);
    var rest := RestOf(ids, times, afterTime, beforeTime, m);
    LeftUnseen(rows, seen, times, afterTime, beforeTime, m);
    RestDescends(ids, times, afterTime, beforeTime, m);
    RestInWindow(ids, times, afterTime, beforeTime, m);
    NarrowerWindow(rest, times, afterTime, beforeTime, bound);
  }

  // Page after page, the window goes on without a gap exactly when the next position is more than
  // a second older than the last of the page.
  lemma BoundaryExactly(rows: seq<Id>, seen: set<Id>, times: Times, afterTime: int, beforeTime: int,
          m: nat)
    requires Descending(Recent(rows, seen), times)
    requires 0 < m <= |InWindow(Recent(rows, seen), times, afterTime, beforeTime)|
    ensures var ids := Recent(rows, seen);
      var W, next := InWindow(ids, times, afterTime, beforeTime), seen + Looked(ids, times, afterTime, beforeTime, m);
      var bound := TimeOf(times, W[m - 1]) - 1;
      InWindow(Recent(rows, next), times, afterTime, bound) == W[m..] <==> |W| == m || TimeOf(times, W[m]) < bound
  {
    hide Recent, Looked, InWindow, Descending, Older;
    var W := InWindow(Recent(rows, seen), times, afterTime, beforeTime);
    var bound := TimeOf(times, W[m - 1]) - 1;
    WindowMember(Recent(rows, seen), times, afterTime, beforeTime, W[m - 1]);
    NextWindow(rows, seen, times, afterTime, beforeTime, m, bound);
    SkippedThenOlder(W[m..], times, bound);
  }

  // ---------------------------------------------------------------------------------------------
  // All the pages of a query

  // The positions that up to `left` pages of k positions hold, of those in the window.
  function Read(W: seq<Id>, times: Times, k: nat, left: nat): seq<Id>
    requires k > 0
    decreases left
  {
    if left == 0 then []
    else if |W| < k then W
    else W[..k] + Read(Older(W[k..], times, TimeOf(times, W[k - 1]) - 1), times, k, left - 1)
  }

  // How many positions a page is to hold.
  function PageSize(n: nat, omitEmpty: bool): (k: nat)
    ensures k > 0
  {
    Max(n * EmptyMult(n, omitEmpty), 1)
  }

  // A page is to hold twice as many positions as are asked for when empty ones are left out or many
  // are asked for, and otherwise 20 times as many, or 50 times if they are few.
  lemma PageSizeIs(n: nat, omitEmpty: bool)
    ensures n > 0 ==> PageSize(n, omitEmpty) == n * EmptyMult(n, omitEmpty) > n
    ensures n > 0 && (omitEmpty || n > 200) ==> PageSize(n, omitEmpty) == 2 * n
    ensures !omitEmpty && 10 <= n <= 200 ==> PageSize(n, omitEmpty) == 20 * n
    ensures !omitEmpty && 0 < n < 10 ==> PageSize(n, omitEmpty) == 50 * n
  {
    if n > 0 { assert n * EmptyMult(n, omitEmpty) >= n * 2; }
  }

  function ShownOf(ids: seq<Id>, tracked: Tracked, omitEmpty: bool): seq<Id> {
    if ids == [] then []
    else (if Shown(tracked, omitEmpty, ids[0]) then [ids[0]] else []) + ShownOf(ids[1..], tracked, omitEmpty)
  }

  lemma {:induction false} ShownConcat(a: seq<Id>, b: seq<Id>, tracked: Tracked, omitEmpty: bool)
    ensures ShownOf(a + b, tracked, omitEmpty) == ShownOf(a, tracked, omitEmpty) + ShownOf(b, tracked, omitEmpty)
  {
    hide Shown;
    if a == [] {
      assert a + b == b;
    } else {
      var head := if Shown(tracked, omitEmpty, a[0]) then [a[0]] else [];
      assert (a + b)[0] == a[0] && (a + b)[1..] == a[1..] + b;
      ShownConcat(a[1..], b, tracked, omitEmpty);
      var x, y := ShownOf(a[1..], tracked, omitEmpty), ShownOf(b, tracked, omitEmpty);
      assert head + (x + y) == (head + x) + y;
    }
  }

  lemma {:induction false} ShownMember(ids: seq<Id>, tracked: Tracked, omitEmpty: bool, x: Id)
    requires x in ShownOf(ids, tracked, omitEmpty)
    ensures x in ids
  {
    hide Shown;
    if x != ids[0] { ShownMember(ids[1..], tracked, omitEmpty, x); }
  }

  // What is to be shown is tracked, and has liquidity if empty positions are left out.
  lemma {:induction false} ShownAre(ids: seq<Id>, tracked: Tracked, omitEmpty: bool)
    ensures forall x :: x in ShownOf(ids, tracked, omitEmpty) <==>
      x in ids && x in tracked && (omitEmpty ==> tracked[x].concLiq != 0 || tracked[x].ambientLiq != 0)
  {
    if ids != [] {
      ShownAre(ids[1..], tracked, omitEmpty);
      assert ids == [ids[0]] + ids[1..];
    }
  }

  lemma {:induction false} NoneShown(tracked: Tracked, omitEmpty: bool)
    ensures ShownOf([], tracked, omitEmpty) == []
  {
  }

  // The first n of a + b are those of a if there are n.
  lemma FirstOfTwo(a: seq<Id>, b: seq<Id>, n: nat)
    ensures |a| >= n ==> FirstN(a + b, n) == FirstN(a, n) == FirstN(a, n)[..n]
    ensures |a| < n ==> FirstN(a, n) == a && FirstN(a + b, n) == a + FirstN(b, n - |a|)
    ensures |FirstN(a, n)| < n <==> |a| < n
  {
  }

  // Going through a page of new positions takes the first of them that are to be shown.
  lemma {:induction false} TakesFirstShown(page: seq<Id>, t: Taken, n: nat, tracked: Tracked, omitEmpty: bool)
    requires |t.results| < n && forall x :: x in page ==> x in t.seen
    ensures var next := TakeFrom(page, true, t, n, tracked, omitEmpty);
      && next.results == FirstN(t.results + ShownOf(page, tracked, omitEmpty), n)
      && next.seen == t.seen
  {
    if page == [] {
      assert t.results + [] == t.results;
    } else {
      hide Shown, TakeFrom, ShownOf;
      var next := TakeOne(page[0], true, t, tracked, omitEmpty);
      TakeStep(page, true, t, n, tracked, omitEmpty);
      ShownConcat([page[0]], page[1..], tracked, omitEmpty);
      assert page == [page[0]] + page[1..];
      ShownNext(t.results, page[0], next.results, ShownOf(page[1..], tracked, omitEmpty), tracked, omitEmpty);
      FirstOfTwo(next.results, ShownOf(page[1..], tracked, omitEmpty), n);
      if |next.results| < n { TakesFirstShown(page[1..], next, n, tracked, omitEmpty); }
    }
  }

  lemma {:induction false} TakeStep(page: seq<Id>, isNew: bool, t: Taken, n: nat, tracked: Tracked, omitEmpty: bool)
    requires page != [] && |t.results| < n
    ensures var next := TakeOne(page[0], isNew, t, tracked, omitEmpty);
      && TakeFrom(page, isNew, t, n, tracked, omitEmpty)
        == (if |next.results| >= n then next else TakeFrom(page[1..], isNew, next, n, tracked, omitEmpty))
      && (page[0] in t.seen && isNew ==> next.seen == t.seen)
      && (page[0] in t.seen && !isNew ==> next == t)
      && (page[0] !in t.seen || isNew ==>
            next.results == t.results + (if Shown(tracked, omitEmpty, page[0]) then [page[0]] else [])
            && next.seen == t.seen + {page[0]})
      && |next.results| <= n
  {
    hide Shown;
    assert t.results + [] == t.results;
  }

  lemma {:induction false} ShownNext(results: seq<Id>, x: Id, next: seq<Id>, rest: seq<Id>, tracked: Tracked, omitEmpty: bool)
    requires next == results + if Shown(tracked, omitEmpty, x) then [x] else []
    ensures results + (ShownOf([x], tracked, omitEmpty) + rest) == next + rest
  {
    hide Shown;
    assert [x][1..] == [] && ShownOf([x], tracked, omitEmpty) == if Shown(tracked, omitEmpty, x) then [x] else [];
  }

  lemma {:induction false} WindowPage(rows: seq<Id>, times: Times, k: nat, afterTime: int, beforeTime: int, seen: set<Id>)
    requires (afterTime != 0 || beforeTime != 0) && k > 0 && Descending(Recent(rows, seen), times)
    ensures var page := PageOf(rows, times, k, afterTime, beforeTime, seen);
      && page == FirstN(InWindow(Recent(rows, seen), times, afterTime, beforeTime), k)
      && forall x :: x in page ==>
        x in SeenAfterPage(rows, times, k, afterTime, beforeTime, seen) && x in rows && TimeOf(times, x) < beforeTime
    ensures SeenAfterPage(rows, times, k, afterTime, beforeTime, seen)
      == seen + Looked(Recent(rows, seen), times, afterTime, beforeTime, k)
  {
    hide Collect, Recent, InWindow, FirstN, Looked, Descending;
    var ids := Recent(rows, seen);
    CollectIsFirst(ids, times, afterTime, beforeTime, k);
    forall x | x in PageOf(rows, times, k, afterTime, beforeTime, seen)
      ensures x in SeenAfterPage(rows, times, k, afterTime, beforeTime, seen) && x in rows && TimeOf(times, x) < beforeTime
    {
      CollectMembers(ids, times, afterTime, beforeTime, k, x);
      RecentMembers(rows, seen, x);
    }
  }

  // From any point on, a query with a window takes the first n to be shown of what its pages hold.
  lemma {:induction false} PagesRead(rows: seq<Id>, tracked: Tracked, n: nat, omitEmpty: bool, afterTime: int,
          beforeTime: int, t: Taken, left: nat)
    requires |t.results| < n && Windowed(rows, TimesOf(tracked), afterTime, beforeTime)
    requires Descending(Recent(rows, t.seen), TimesOf(tracked))
    ensures var W := InWindow(Recent(rows, t.seen), TimesOf(tracked), afterTime, beforeTime);
      Pages(rows, tracked, n, omitEmpty, afterTime, beforeTime, t, left) ==
        FirstN(t.results + ShownOf(Read(W, TimesOf(tracked), PageSize(n, omitEmpty), left), tracked, omitEmpty), n)
    decreases left
  {
    hide *;
    var times, k := TimesOf(tracked), n * EmptyMult(n, omitEmpty);
    var W := InWindow(Recent(rows, t.seen), times, afterTime, beforeTime);
    PageSizeIs(n, omitEmpty);
    if left == 0 {
      PagesEnd(rows, tracked, n, omitEmpty, afterTime, beforeTime, t);
      NothingRead(W, times, k, tracked, omitEmpty, t.results, n);
    } else {
      var page := PageOf(rows, times, k, afterTime, beforeTime, t.seen);
      var seen := SeenAfterPage(rows, times, k, afterTime, beforeTime, t.seen);
      var next := TakeFrom(page, true, t.(seen := seen), n, tracked, omitEmpty);
      var s := t.results + ShownOf(page, tracked, omitEmpty);
      PagesGoOn(rows, tracked, n, omitEmpty, afterTime, beforeTime, t, left);
      WindowedIs(rows, times, afterTime, beforeTime);
      WindowPage(rows, times, k, afterTime, beforeTime, t.seen);
      TakesFirstShown(page, t.(seen := seen), n, tracked, omitEmpty);
      var bound := if page == [] then beforeTime else TimeOf(times, page[|page| - 1]) - 1;
      assert page != [] ==> bound < beforeTime && page[|page| - 1] in rows by {
        if page != [] { assert page[|page| - 1] in page; }
      }
      NextWindow(rows, t.seen, times, afterTime, beforeTime, k, bound);
      var W' := InWindow(Recent(rows, seen), times, afterTime, bound);
      var more := if page == [] then [] else Read(W', times, k, left - 1);
      ReadOn(W, times, k, left, page, W', more);
      ShownConcat(page, more, tracked, omitEmpty);
      var m := ShownOf(more, tracked, omitEmpty);
      assert s + m == t.results + ShownOf(Read(W, times, k, left), tracked, omitEmpty);
      FirstOfTwo(s, m, n);
      if page == [] {
        NoneShown(tracked, omitEmpty);
        assert s + [] == s;
      } else if |s| < n {
        PagesRead(rows, tracked, n, omitEmpty, afterTime, bound, next, left - 1);
      }
    }
  }

  lemma {:induction false} NothingRead(W: seq<Id>, times: Times, k: nat, tracked: Tracked, omitEmpty: bool,
          results: seq<Id>, n: nat)
    requires k > 0 && |results| < n
    ensures FirstN(results + ShownOf(Read(W, times, k, 0), tracked, omitEmpty), n) == results
  {
    assert results + [] == results;
  }

  lemma WindowedIs(rows: seq<Id>, times: Times, afterTime: int, beforeTime: int)
    requires Windowed(rows, times, afterTime, beforeTime)
    ensures afterTime != 0 || beforeTime != 0
    ensures forall x :: x in rows ==> Windowed(rows, times, afterTime, TimeOf(times, x) - 1)
  {
  }

  lemma ReadOn(W: seq<Id>, times: Times, k: nat, left: nat, page: seq<Id>, next: seq<Id>, more: seq<Id>)
    requires k > 0 && left > 0 && page == FirstN(W, k)
    requires page != [] ==> next == if |W| < k then [] else Older(W[k..], times, TimeOf(times, page[|page| - 1]) - 1)
    requires more == if page == [] then [] else Read(next, times, k, left - 1)
    ensures Read(W, times, k, left) == page + more
  {
    if |W| < k { assert page + [] == page; }
  }

  // ---------------------------------------------------------------------------------------------
  // The query without a window: its first page is the end of the log as it is

  function Members(ids: seq<Id>): set<Id> {
    if ids == [] then {} else Members(ids[..|ids| - 1]) + {ids[|ids| - 1]}
  }

  lemma {:induction false} MembersAppend(init: seq<Id>, x: Id)
    ensures Members(init + [x]) == Members(init) + {x}
  {
    assert (init + [x])[..|init|] == init;
  }

  function Tail(rows: seq<Id>, k: nat): (tail: seq<Id>)
    ensures |tail| <= |rows|
    ensures k > 0 && rows != [] ==> tail != []
  {
    if |rows| <= k then rows else rows[|rows| - k..]
  }

  lemma {:induction false} LastNOfTail(rows: seq<Id>, k: nat)
    ensures LastN(rows, k) == LastN(Tail(rows, k), |Tail(rows, k)|) == Reversed(Tail(rows, k))
  {
    hide LastN, Reversed;
    var tail := Tail(rows, k);
    LastNCapped(rows, k);
    LastNIsTail(rows, |tail|);
    LastNIsTail(tail, |tail|);
    assert tail[0..] == tail == rows[|rows| - |tail|..];
  }

  // Going through it takes the first to be shown of its positions, each at its last occurrence.
  lemma {:induction false} TakesUnseen(tail: seq<Id>, t: Taken, n: nat, tracked: Tracked, omitEmpty: bool)
    requires |t.results| < n
    ensures var next := TakeFrom(LastN(tail, |tail|), false, t, n, tracked, omitEmpty);
      && next.results == FirstN(t.results + ShownOf(Recent(tail, t.seen), tracked, omitEmpty), n)
      && (|next.results| < n ==> next.seen == t.seen + Members(tail))
  {
    if tail == [] {
      assert t.results + [] == t.results && t.seen + {} == t.seen;
    } else {
      var page, init, x := LastN(tail, |tail|), tail[..|tail| - 1], tail[|tail| - 1];
      assert tail == init + [x] && page[0] == x && page[1..] == LastN(init, |init|);
      hide Shown, TakeFrom, ShownOf, LastN;
      var next := TakeOne(x, false, t, tracked, omitEmpty);
      TakeStep(page, false, t, n, tracked, omitEmpty);
      MembersAppend(init, x);
      var ids := Recent(init, next.seen);
      var rest := ShownOf(ids, tracked, omitEmpty);
      assert t.results + ShownOf(Recent(tail, t.seen), tracked, omitEmpty) == next.results + rest by {
        if x !in t.seen {
          ShownConcat([x], ids, tracked, omitEmpty);
          ShownNext(t.results, x, next.results, rest, tracked, omitEmpty);
        }
      }
      FirstOfTwo(next.results, rest, n);
      if |next.results| < n {
        TakesUnseen(init, next, n, tracked, omitEmpty);
        assert next.seen + Members(init) == t.seen + Members(tail);
      }
    }
  }

  lemma {:induction false} RecentSplit(init: seq<Id>, tail: seq<Id>, seen: set<Id>)
    ensures Recent(init + tail, seen) == Recent(tail, seen) + Recent(init, seen + Members(tail))
    ensures Recent(init + tail, seen + Members(tail)) == Recent(init, seen + Members(tail))
  {
    if tail == [] {
      assert init + tail == init && seen + {} == seen;
    } else {
      var rest, x := tail[..|tail| - 1], tail[|tail| - 1];
      assert (init + tail)[..|init + tail| - 1] == init + rest && tail == rest + [x];
      MembersAppend(rest, x);
      var all := seen + Members(tail);
      if x in seen {
        RecentSplit(init, rest, seen);
        assert seen + Members(rest) == all;
      } else {
        RecentSplit(init, rest, seen + {x});
        assert seen + {x} + Members(rest) == all;
        assert [x] + (Recent(rest, seen + {x}) + Recent(init, all)) == ([x] + Recent(rest, seen + {x})) + Recent(init, all);
      }
    }
  }

  // No position is dated 1 or earlier.
  predicate Dated(rows: seq<Id>, times: Times) {
    forall x :: x in rows ==> TimeOf(times, x) > 1
  }

  lemma {:induction false} WholeWindow(ids: seq<Id>, times: Times, bound: int)
    requires Descending(ids, times) && Dated(ids, times)
    ensures InWindow(ids, times, 0, bound) == Older(ids, times, bound)
  {
    if ids != [] {
      hide Descending, InWindow, Older;
      var x, rest := ids[0], ids[1..];
      assert ids == [x] + rest && x in ids;
      DescendingRest(ids, times);
      WindowCons(ids, times, 0, bound);
      forall y | y in rest
        ensures TimeOf(times, y) > 1
      {
        assert y in ids;
      }
      WholeWindow(rest, times, bound);
      SkippedThenOlder(ids, times, bound);
      SkippedThenOlder(rest, times, bound);
      if TimeOf(times, x) >= bound {
        OlderCons(x, rest, times, bound);
      } else if rest != [] {
        HeadIsNewest(ids, times, rest[0]);
      }
    }
  }

  // The unseen positions after the first page, and the bound of the next.
  function Behind(rows: seq<Id>, k: nat): seq<Id> {
    Recent(rows, Members(Tail(rows, k)))
  }

  function BoundBehind(rows: seq<Id>, times: Times, k: nat): int
    requires k > 0 && rows != []
  {
    TimeOf(times, Tail(rows, k)[0]) - 1
  }

  // What up to `left` pages hold.
  function ReadByDefault(rows: seq<Id>, times: Times, k: nat, left: nat): seq<Id>
    requires k > 0
  {
    if left == 0 || rows == [] then []
    else Recent(Tail(rows, k), {}) + Read(Older(Behind(rows, k), times, BoundBehind(rows, times, k)), times, k, left - 1)
  }

  lemma {:induction false} TailThenBehind(rows: seq<Id>, k: nat)
    ensures Recent(rows, {}) == Recent(Tail(rows, k), {}) + Behind(rows, k)
  {
    hide Recent, Members;
    var tail := Tail(rows, k);
    var init := rows[..|rows| - |tail|];
    assert rows == init + tail;
    var none: set<Id> := {};
    assert none + Members(tail) == Members(tail);
    RecentSplit(init, tail, none);
  }

  lemma {:induction false} SuffixDescends(a: seq<Id>, b: seq<Id>, times: Times)
    requires Descending(a + b, times)
    ensures Descending(b, times)
  {
    if a == [] {
      assert a + b == b;
    } else {
      DescendingRest(a + b, times);
      assert (a + b)[1..] == a[1..] + b;
      SuffixDescends(a[1..], b, times);
    }
  }

  lemma {:induction false} SecondWindow(rows: seq<Id>, times: Times, k: nat)
    requires k > 0 && rows != [] && Dated(rows, times) && Descending(Recent(rows, {}), times)
    ensures var bound := BoundBehind(rows, times, k);
      && Descending(Behind(rows, k), times)
      && Windowed(rows, times, 0, bound)
      && InWindow(Behind(rows, k), times, 0, bound) == Older(Behind(rows, k), times, bound)
      && LastN(rows, k) != [] && TimeOf(times, LastN(rows, k)[|LastN(rows, k)| - 1]) - 1 == bound
  {
    hide Recent, Members, Descending, InWindow, LastN, Reversed, Older;
    TailThenBehind(rows, k);
    SuffixDescends(Recent(Tail(rows, k), {}), Behind(rows, k), times);
    forall x | x in Behind(rows, k)
      ensures TimeOf(times, x) > 1
    {
      RecentMembers(rows, Members(Tail(rows, k)), x);
    }
    WholeWindow(Behind(rows, k), times, BoundBehind(rows, times, k));
    LastNOfTail(rows, k);
    assert Tail(rows, k)[0] in Tail(rows, k);
  }

  lemma {:induction false} DefaultPagesRead(rows: seq<Id>, tracked: Tracked, n: nat, omitEmpty: bool, left: nat)
    requires n > 0 && Dated(rows, TimesOf(tracked)) && Descending(Recent(rows, {}), TimesOf(tracked))
    ensures Pages(rows, tracked, n, omitEmpty, 0, 0, Taken([], {}), left) ==
      FirstN(ShownOf(ReadByDefault(rows, TimesOf(tracked), PageSize(n, omitEmpty), left), tracked, omitEmpty), n)
  {
    hide *;
    var times, k, t := TimesOf(tracked), n * EmptyMult(n, omitEmpty), Taken([], {});
    PageSizeIs(n, omitEmpty);
    NoneShown(tracked, omitEmpty);
    ReadByDefaultIs(rows, times, k, left);
    FirstIsNone([], n);
    if left == 0 {
      PagesEnd(rows, tracked, n, omitEmpty, 0, 0, t);
    } else {
      var page, tail := PageOf(rows, times, k, 0, 0, {}), Tail(rows, k);
      var next := TakeFrom(page, false, t, n, tracked, omitEmpty);
      PagesGoOn(rows, tracked, n, omitEmpty, 0, 0, t, left);
      LastPage(rows, times, k);
      TakesUnseen(tail, t, n, tracked, omitEmpty);
      var s := ShownOf(Recent(tail, {}), tracked, omitEmpty);
      assert [] + s == s;
      if rows == [] {
        NothingRecent(tail, {});
      } else {
        var bound := BoundBehind(rows, times, k);
        var more := Read(Older(Behind(rows, k), times, bound), times, k, left - 1);
        SecondWindow(rows, times, k);
        ShownConcat(Recent(tail, {}), more, tracked, omitEmpty);
        FirstOfTwo(s, ShownOf(more, tracked, omitEmpty), n);
        if |s| < n {
          BehindIs(rows, k, next.seen);
          PagesRead(rows, tracked, n, omitEmpty, 0, bound, next, left - 1);
        }
      }
    }
  }

  lemma {:induction false} ReadByDefaultIs(rows: seq<Id>, times: Times, k: nat, left: nat)
    requires k > 0
    ensures ReadByDefault(rows, times, k, left) ==
      if left == 0 || rows == [] then []
      else Recent(Tail(rows, k), {}) + Read(Older(Behind(rows, k), times, BoundBehind(rows, times, k)), times, k, left - 1)
  {
  }

  lemma {:induction false} LastPage(rows: seq<Id>, times: Times, k: nat)
    ensures PageOf(rows, times, k, 0, 0, {}) == LastN(rows, k) == LastN(Tail(rows, k), |Tail(rows, k)|)
    ensures SeenAfterPage(rows, times, k, 0, 0, {}) == {}
    ensures rows == [] ==> LastN(rows, k) == [] == Tail(rows, k)
  {
    LastNOfTail(rows, k);
  }

  lemma {:induction false} NothingRecent(rows: seq<Id>, seen: set<Id>)
    requires rows == []
    ensures Recent(rows, seen) == []
  {
  }

  lemma {:induction false} BehindIs(rows: seq<Id>, k: nat, seen: set<Id>)
    requires seen == {} + Members(Tail(rows, k))
    ensures Behind(rows, k) == Recent(rows, seen)
  {
    assert seen == Members(Tail(rows, k));
  }

  lemma FirstIsNone(ids: seq<Id>, n: nat)
    ensures FirstN(ids, n) == [] <==> n == 0 || ids == []
    ensures FirstN([], n) == []
  {
  }

  // ---------------------------------------------------------------------------------------------
  // Exactly when a query returns the most recent positions

  // Nothing to be shown is passed over where a page that was not enough meets the next, and
  // nothing is left when the pages are used up.
  predicate NoneLost(W: seq<Id>, tracked: Tracked, omitEmpty: bool, n: nat, k: nat, left: nat)
    requires k > 0
    decreases left, 0
  {
    if left == 0 then n == 0 || ShownOf(W, tracked, omitEmpty) == []
    else if |W| < k then true
    else NoneLostBehind(W[..k], W[k..], TimeOf(TimesOf(tracked), W[k - 1]) - 1, tracked, omitEmpty, n, k, left)
  }

  predicate NoneLostBehind(page: seq<Id>, rest: seq<Id>, bound: int, tracked: Tracked, omitEmpty: bool, n: nat,
          k: nat, left: nat)
    requires k > 0 && left > 0
    decreases left - 1, 1
  {
    var found := |ShownOf(page, tracked, omitEmpty)|;
    found < n ==>
      && ShownOf(Skipped(rest, TimesOf(tracked), bound), tracked, omitEmpty) == []
      && NoneLost(Older(rest, TimesOf(tracked), bound), tracked, omitEmpty, n - found, k, left - 1)
  }

  lemma {:induction false} ReadMember(W: seq<Id>, times: Times, k: nat, left: nat, x: Id)
    requires k > 0 && x in Read(W, times, k, left)
    ensures x in W
    decreases left
  {
    hide Older;
    if |W| >= k && x !in W[..k] {
      var rest := Older(W[k..], times, TimeOf(times, W[k - 1]) - 1);
      ReadMember(rest, times, k, left - 1, x);
      OlderMember(W[k..], times, TimeOf(times, W[k - 1]) - 1, x);
    }
  }

  lemma {:induction false} ApartInTwo(a: seq<Id>, b: seq<Id>, x: Id)
    requires NoneTwice(a + b) && x in a
    ensures x !in b
  {
    if b != [] {
      var n := |b| - 1;
      assert (a + b)[..|a + b| - 1] == a + b[..n];
      ApartInTwo(a, b[..n], x);
      assert x in a + b[..n];
    }
  }

  lemma {:induction false} RestNoneTwice(a: seq<Id>, b: seq<Id>)
    requires NoneTwice(a + b)
    ensures NoneTwice(b)
  {
    if a == [] {
      assert a + b == b;
    } else {
      NoneTwiceRest(a + b);
      assert (a + b)[1..] == a[1..] + b;
      RestNoneTwice(a[1..], b);
    }
  }

  lemma {:induction false} WindowNoneTwice(ids: seq<Id>, times: Times, afterTime: int, beforeTime: int)
    requires NoneTwice(ids)
    ensures NoneTwice(InWindow(ids, times, afterTime, beforeTime))
  {
    if ids != [] {
      hide NoneTwice, InWindow;
      WindowCons(ids, times, afterTime, beforeTime);
      NoneTwiceRest(ids);
      WindowNoneTwice(ids[1..], times, afterTime, beforeTime);
      var rest := InWindow(ids[1..], times, afterTime, beforeTime);
      if ids[0] in rest { WindowMember(ids[1..], times, afterTime, beforeTime, ids[0]); }
      NoneTwiceCons(ids[0], rest);
    }
  }

  // Passing over a position to be shown cannot be made good: it was the next one.
  lemma {:induction false} PassedOver(rest: seq<Id>, read: seq<Id>, bound: int, tracked: Tracked, omitEmpty: bool, m: nat)
    requires NoneTwice(rest) && m > 0 && forall x :: x in read ==> x in Older(rest, TimesOf(tracked), bound)
    requires ShownOf(Skipped(rest, TimesOf(tracked), bound), tracked, omitEmpty) != []
    ensures FirstN(ShownOf(read, tracked, omitEmpty), m) != FirstN(ShownOf(rest, tracked, omitEmpty), m)
  {
    hide ShownOf, Older, Skipped, TimesOf, NoneTwice;
    var a, b := Skipped(rest, TimesOf(tracked), bound), Older(rest, TimesOf(tracked), bound);
    var s, r := ShownOf(a, tracked, omitEmpty), ShownOf(read, tracked, omitEmpty);
    SkippedThenOlder(rest, TimesOf(tracked), bound);
    ShownConcat(a, b, tracked, omitEmpty);
    ShownMember(a, tracked, omitEmpty, s[0]);
    ApartInTwo(a, b, s[0]);
    assert FirstN(s + ShownOf(b, tracked, omitEmpty), m)[0] == s[0];
    if r != [] {
      ShownMember(read, tracked, omitEmpty, r[0]);
      assert FirstN(r, m)[0] == r[0];
    }
  }

  lemma {:induction false} StepExactly(page: seq<Id>, rest: seq<Id>, read: seq<Id>, bound: int, tracked: Tracked,
          omitEmpty: bool, n: nat)
    requires NoneTwice(rest) && forall x :: x in read ==> x in Older(rest, TimesOf(tracked), bound)
    ensures var found := |ShownOf(page, tracked, omitEmpty)|;
      FirstN(ShownOf(page + read, tracked, omitEmpty), n) == FirstN(ShownOf(page + rest, tracked, omitEmpty), n) <==>
        (found < n ==>
          ShownOf(Skipped(rest, TimesOf(tracked), bound), tracked, omitEmpty) == []
          && FirstN(ShownOf(read, tracked, omitEmpty), n - found)
            == FirstN(ShownOf(Older(rest, TimesOf(tracked), bound), tracked, omitEmpty), n - found))
  {
    hide ShownOf, Older, Skipped, TimesOf, NoneTwice;
    var s, r, v := ShownOf(page, tracked, omitEmpty), ShownOf(read, tracked, omitEmpty), ShownOf(rest, tracked, omitEmpty);
    ShownConcat(page, read, tracked, omitEmpty);
    ShownConcat(page, rest, tracked, omitEmpty);
    FirstOfTwo(s, r, n);
    FirstOfTwo(s, v, n);
    if |s| < n {
      var m := n - |s|;
      SameAfter(s, FirstN(r, m), FirstN(v, m));
      var a, b := Skipped(rest, TimesOf(tracked), bound), Older(rest, TimesOf(tracked), bound);
      if ShownOf(a, tracked, omitEmpty) == [] {
        SkippedThenOlder(rest, TimesOf(tracked), bound);
        ShownConcat(a, b, tracked, omitEmpty);
        assert [] + ShownOf(b, tracked, omitEmpty) == ShownOf(b, tracked, omitEmpty);
      } else {
        PassedOver(rest, read, bound, tracked, omitEmpty, m);
      }
    }
  }

  lemma SameAfter(s: seq<Id>, a: seq<Id>, b: seq<Id>)
    ensures s + a == s + b <==> a == b
  {
    if s + a == s + b { assert a == (s + a)[|s|..] == (s + b)[|s|..] == b; }
  }

  lemma {:induction false} LosesNoneExactly(W: seq<Id>, tracked: Tracked, omitEmpty: bool, n: nat, k: nat, left: nat)
    requires k > 0 && NoneTwice(W)
    ensures FirstN(ShownOf(Read(W, TimesOf(tracked), k, left), tracked, omitEmpty), n) == FirstN(ShownOf(W, tracked, omitEmpty), n)
      <==> NoneLost(W, tracked, omitEmpty, n, k, left)
    decreases left, 0
  {
    hide TimesOf, NoneTwice, ShownOf, Older, Skipped;
    if left == 0 {
      NoneShown(tracked, omitEmpty);
    } else if |W| >= k {
      var bound := TimeOf(TimesOf(tracked), W[k - 1]) - 1;
      assert W == W[..k] + W[k..];
      BehindExactly(W[..k], W[k..], bound, tracked, omitEmpty, n, k, left);
    }
  }

  lemma {:induction false} BehindExactly(page: seq<Id>, rest: seq<Id>, bound: int, tracked: Tracked, omitEmpty: bool,
          n: nat, k: nat, left: nat)
    requires k > 0 && left > 0 && NoneTwice(page + rest)
    ensures var read := Read(Older(rest, TimesOf(tracked), bound), TimesOf(tracked), k, left - 1);
      FirstN(ShownOf(page + read, tracked, omitEmpty), n) == FirstN(ShownOf(page + rest, tracked, omitEmpty), n) <==>
        NoneLostBehind(page, rest, bound, tracked, omitEmpty, n, k, left)
    decreases left - 1, 1
  {
    hide TimesOf, NoneTwice, ShownOf, Older, Skipped, Read, NoneLost;
    var older := Older(rest, TimesOf(tracked), bound);
    var read, found := Read(older, TimesOf(tracked), k, left - 1), |ShownOf(page, tracked, omitEmpty)|;
    RestNoneTwice(page, rest);
    SkippedThenOlder(rest, TimesOf(tracked), bound);
    RestNoneTwice(Skipped(rest, TimesOf(tracked), bound), older);
    forall x | x in read
      ensures x in older
    {
      ReadMember(older, TimesOf(tracked), k, left - 1, x);
    }
    StepExactly(page, rest, read, bound, tracked, omitEmpty, n);
    if found < n { LosesNoneExactly(older, tracked, omitEmpty, n - found, k, left - 1); }
  }

  lemma {:induction false} NoResults(rows: seq<Id>, tracked: Tracked, n: nat, omitEmpty: bool, afterTime: int,
          beforeTime: int, left: nat)
    requires n == 0
    ensures Pages(rows, tracked, n, omitEmpty, afterTime, beforeTime, Taken([], {}), left) == []
    ensures forall ids :: FirstN(ids, n) == []
  {
    hide PageOf, SeenAfterPage, TakeFrom, TimesOf;
  }

  // A query with a window returns exactly the n most recent positions of the window that are to be
  // shown, if and only if no position to be shown is passed over where a page that was not enough
  // meets the next, nor any left when the pages are used up.
  lemma {:induction false} MostRecentExactly(rows: seq<Id>, tracked: Tracked, n: nat, omitEmpty: bool, afterTime: int,
          beforeTime: int, left: nat)
    requires Windowed(rows, TimesOf(tracked), afterTime, beforeTime) && Descending(Recent(rows, {}), TimesOf(tracked))
    ensures var W := InWindow(Recent(rows, {}), TimesOf(tracked), afterTime, beforeTime);
      Pages(rows, tracked, n, omitEmpty, afterTime, beforeTime, Taken([], {}), left) == FirstN(ShownOf(W, tracked, omitEmpty), n) <==>
        NoneLost(W, tracked, omitEmpty, n, PageSize(n, omitEmpty), left)
  {
    hide *;
    var W := InWindow(Recent(rows, {}), TimesOf(tracked), afterTime, beforeTime);
    var all := ShownOf(Read(W, TimesOf(tracked), PageSize(n, omitEmpty), left), tracked, omitEmpty);
    RecentIsDistinct(rows, {});
    WindowNoneTwice(Recent(rows, {}), TimesOf(tracked), afterTime, beforeTime);
    LosesNoneExactly(W, tracked, omitEmpty, n, PageSize(n, omitEmpty), left);
    if n == 0 {
      NoResults(rows, tracked, n, omitEmpty, afterTime, beforeTime, left);
    } else {
      PagesRead(rows, tracked, n, omitEmpty, afterTime, beforeTime, Taken([], {}), left);
      assert [] + all == all;
    }
  }

  predicate NoneLostByDefault(rows: seq<Id>, tracked: Tracked, omitEmpty: bool, n: nat, k: nat, left: nat)
    requires k > 0
  {
    if left == 0 then n == 0 || ShownOf(Recent(rows, {}), tracked, omitEmpty) == []
    else rows != [] ==>
      NoneLostBehind(Recent(Tail(rows, k), {}), Behind(rows, k), BoundBehind(rows, TimesOf(tracked), k), tracked, omitEmpty, n, k, left)
  }

  lemma {:induction false} NoneLostByDefaultIs(rows: seq<Id>, tracked: Tracked, omitEmpty: bool, n: nat, k: nat, left: nat)
    requires k > 0
    ensures NoneLostByDefault(rows, tracked, omitEmpty, n, k, left) <==>
      if left == 0 then n == 0 || ShownOf(Recent(rows, {}), tracked, omitEmpty) == []
      else rows != [] ==>
        NoneLostBehind(Recent(Tail(rows, k), {}), Behind(rows, k), BoundBehind(rows, TimesOf(tracked), k), tracked, omitEmpty, n, k, left)
  {
  }

  // The query without a window, exactly, whose first page may hold a position more than once.
  lemma {:induction false} MostRecentByDefaultExactly(rows: seq<Id>, tracked: Tracked, n: nat, omitEmpty: bool, left: nat)
    requires Dated(rows, TimesOf(tracked)) && Descending(Recent(rows, {}), TimesOf(tracked))
    ensures Pages(rows, tracked, n, omitEmpty, 0, 0, Taken([], {}), left) == FirstN(ShownOf(Recent(rows, {}), tracked, omitEmpty), n)
      <==> NoneLostByDefault(rows, tracked, omitEmpty, n, PageSize(n, omitEmpty), left)
  {
    hide *;
    var times, k := TimesOf(tracked), PageSize(n, omitEmpty);
    NoneLostByDefaultIs(rows, tracked, omitEmpty, n, k, left);
    ReadByDefaultIs(rows, times, k, left);
    TailThenBehind(rows, k);
    RecentIsDistinct(rows, {});
    NoneShown(tracked, omitEmpty);
    FirstIsNone(ShownOf(Recent(rows, {}), tracked, omitEmpty), n);
    if rows == [] { NothingRecent(rows, {}); }
    if left > 0 && rows != [] {
      BehindExactly(Recent(Tail(rows, k), {}), Behind(rows, k), BoundBehind(rows, times, k), tracked, omitEmpty, n, k, left);
    }
    if n == 0 {
      NoResults(rows, tracked, n, omitEmpty, 0, 0, left);
    } else {
      DefaultPagesRead(rows, tracked, n, omitEmpty, left);
    }
  }

  // ---------------------------------------------------------------------------------------------
  // When nothing at all is passed over

  // At every boundary between two pages the next position is more than a second older.
  predicate Gaps(W: seq<Id>, times: Times, k: nat, left: nat)
    requires k > 0
    decreases left
  {
    left <= 1 || |W| <= k || (TimeOf(times, W[k]) < TimeOf(times, W[k - 1]) - 1 && Gaps(W[k..], times, k, left - 1))
  }

  // The first `left` pages of k positions each.
  function FirstPages(W: seq<Id>, k: nat, left: nat): seq<Id>
    decreases left
  {
    if left == 0 then [] else if |W| <= k then W else W[..k] + FirstPages(W[k..], k, left - 1)
  }

  lemma {:induction false} FirstPagesAre(W: seq<Id>, k: nat, left: nat)
    ensures FirstPages(W, k, left) == FirstN(W, k * left)
    decreases left
  {
    hide FirstN;
    if left == 0 {
      NoneOf(W);
    } else {
      OnePageMore(k, left);
      if |W| <= k {
        AllOf(W, k * left);
      } else {
        FirstPagesAre(W[k..], k, left - 1);
        FirstNSplit(W, k, k * (left - 1));
      }
    }
  }

  lemma OnePageMore(k: nat, left: nat)
    requires left > 0
    ensures k * left == k + k * (left - 1) && k * (left - 1) >= 0
  {
  }

  lemma NoneOf(W: seq<Id>)
    ensures FirstN(W, 0) == []
  {
  }

  lemma AllOf(W: seq<Id>, n: nat)
    requires |W| <= n
    ensures FirstN(W, n) == W
  {
  }

  lemma FirstNSplit(W: seq<Id>, k: nat, more: nat)
    requires |W| >= k
    ensures FirstN(W, k + more) == W[..k] + FirstN(W[k..], more)
  {
    Halves(W, k);
    if |W| > k + more {
      assert W[k..][..more] == W[k..k + more];
      Halves(W[..k + more], k);
      assert W[..k + more][..k] == W[..k] && W[..k + more][k..] == W[k..k + more];
    }
  }

  // The pages hold just the newest positions of the window exactly when there is such a gap at
  // every boundary.
  lemma {:induction false} ReadsAllExactly(W: seq<Id>, times: Times, k: nat, left: nat)
    requires k > 0 && NoneTwice(W)
    ensures Read(W, times, k, left) == FirstPages(W, k, left) <==> Gaps(W, times, k, left)
    decreases left
  {
    hide NoneTwice, Older, Read, FirstPages, Gaps;
    if left == 0 || |W| <= k {
      OnePage(W, times, k, left);
    } else {
      var page, rest, bound := W[..k], W[k..], TimeOf(times, W[k - 1]) - 1;
      var older := Older(rest, times, bound);
      PagesUnfold(W, times, k, left);
      Halves(W, k);
      RestNoneTwice(page, rest);
      SkippedThenOlder(rest, times, bound);
      SameAfter(page, Read(older, times, k, left - 1), FirstPages(rest, k, left - 1));
      if left > 1 && older != rest {
        FirstIsSkipped(rest, times, k, left - 1, bound);
      } else {
        ReadsAllExactly(rest, times, k, left - 1);
        NoPages(older, rest, times, k);
      }
    }
  }

  lemma {:induction false} OnePage(W: seq<Id>, times: Times, k: nat, left: nat)
    requires k > 0 && (left == 0 || |W| <= k)
    ensures Read(W, times, k, left) == FirstPages(W, k, left) && Gaps(W, times, k, left)
  {
    if left > 0 && |W| == k {
      var none := Older(W[k..], times, TimeOf(times, W[k - 1]) - 1);
      assert none == [] && W[..k] == W;
      assert Read(none, times, k, left - 1) == [];
      assert W + [] == W;
    }
  }

  lemma Halves(W: seq<Id>, k: nat)
    requires k <= |W|
    ensures W == W[..k] + W[k..]
  {
  }

  lemma PagesUnfold(W: seq<Id>, times: Times, k: nat, left: nat)
    requires k > 0 && left > 0 && |W| > k
    ensures Read(W, times, k, left) == W[..k] + Read(Older(W[k..], times, TimeOf(times, W[k - 1]) - 1), times, k, left - 1)
    ensures FirstPages(W, k, left) == W[..k] + FirstPages(W[k..], k, left - 1)
    ensures Gaps(W, times, k, left) <==>
      left == 1 || (TimeOf(times, W[k]) < TimeOf(times, W[k - 1]) - 1 && Gaps(W[k..], times, k, left - 1))
    ensures Gaps(W[k..], times, k, 0)
  {
    hide Older;
  }

  lemma {:induction false} NoPages(older: seq<Id>, rest: seq<Id>, times: Times, k: nat)
    requires k > 0
    ensures Read(older, times, k, 0) == FirstPages(rest, k, 0) == []
  {
  }

  lemma {:induction false} FirstIsSkipped(rest: seq<Id>, times: Times, k: nat, left: nat, bound: int)
    requires k > 0 && left > 0 && rest != [] && NoneTwice(rest) && TimeOf(times, rest[0]) >= bound
    ensures Read(Older(rest, times, bound), times, k, left) != FirstPages(rest, k, left)
  {
    hide NoneTwice, Read, Older;
    var x := rest[0];
    NoneTwiceRest(rest);
    OlderCons(x, rest[1..], times, bound);
    assert rest == [x] + rest[1..] && FirstPages(rest, k, left)[0] == x;
    if x in Read(Older(rest, times, bound), times, k, left) {
      ReadMember(Older(rest, times, bound), times, k, left, x);
      OlderMember(rest[1..], times, bound, x);
    }
  }

  // With such gaps a query returns the n most recent of what its pages have room for.
  lemma {:induction false} GapsSuffice(rows: seq<Id>, tracked: Tracked, n: nat, omitEmpty: bool, afterTime: int,
          beforeTime: int, left: nat)
    requires n > 0 && Windowed(rows, TimesOf(tracked), afterTime, beforeTime) && Descending(Recent(rows, {}), TimesOf(tracked))
    requires Gaps(InWindow(Recent(rows, {}), TimesOf(tracked), afterTime, beforeTime), TimesOf(tracked), PageSize(n, omitEmpty), left)
    ensures var W := InWindow(Recent(rows, {}), TimesOf(tracked), afterTime, beforeTime);
      Pages(rows, tracked, n, omitEmpty, afterTime, beforeTime, Taken([], {}), left) ==
        FirstN(ShownOf(FirstN(W, PageSize(n, omitEmpty) * left), tracked, omitEmpty), n)
  {
    hide *;
    var W, k := InWindow(Recent(rows, {}), TimesOf(tracked), afterTime, beforeTime), PageSize(n, omitEmpty);
    var all := ShownOf(Read(W, TimesOf(tracked), k, left), tracked, omitEmpty);
    RecentIsDistinct(rows, {});
    WindowNoneTwice(Recent(rows, {}), TimesOf(tracked), afterTime, beforeTime);
    PagesRead(rows, tracked, n, omitEmpty, afterTime, beforeTime, Taken([], {}), left);
    ReadsAllExactly(W, TimesOf(tracked), k, left);
    FirstPagesAre(W, k, left);
    assert [] + all == all;
  }

  // Nothing is lost when the window holds less than a page, or its first page enough to be shown.
  lemma {:induction false} FirstPageIsEnough(W: seq<Id>, tracked: Tracked, omitEmpty: bool, n: nat, k: nat, left: nat)
    requires k > 0 && left > 0 && (|W| < k || |ShownOf(W[..k], tracked, omitEmpty)| >= n)
    ensures NoneLost(W, tracked, omitEmpty, n, k, left)
  {
    hide ShownOf, TimesOf;
  }

  // A page holds more than n positions, so unless empty ones are left out the first is enough.
  lemma {:induction false} CompleteWithEmpty(rows: seq<Id>, tracked: Tracked, n: nat, afterTime: int, beforeTime: int,
          left: nat)
    requires n > 0 && left > 0 && forall x :: x in rows ==> x in tracked
    requires Windowed(rows, TimesOf(tracked), afterTime, beforeTime) && Descending(Recent(rows, {}), TimesOf(tracked))
    ensures Pages(rows, tracked, n, false, afterTime, beforeTime, Taken([], {}), left) ==
      FirstN(InWindow(Recent(rows, {}), TimesOf(tracked), afterTime, beforeTime), n)
  {
    hide *;
    var W, k := InWindow(Recent(rows, {}), TimesOf(tracked), afterTime, beforeTime), PageSize(n, false);
    forall x | x in W
      ensures x in tracked
    {
      WindowMember(Recent(rows, {}), TimesOf(tracked), afterTime, beforeTime, x);
      RecentMembers(rows, {}, x);
    }
    EveryOneShown(W, tracked);
    if |W| >= k { EveryOneShown(W[..k], tracked); }
    PageSizeIs(n, false);
    MostRecentExactly(rows, tracked, n, false, afterTime, beforeTime, left);
    FirstPageIsEnough(W, tracked, false, n, k, left);
  }

  lemma {:induction false} EveryOneShown(ids: seq<Id>, tracked: Tracked)
    requires forall x :: x in ids ==> x in tracked
    ensures ShownOf(ids, tracked, false) == ids
  {
    if ids != [] {
      assert ids[0] in ids;
      EveryOneShown(ids[1..], tracked);
    }
  }

  // ---------------------------------------------------------------------------------------------
  // Runs on which positions are passed over

  lemma {:induction false} Apart(a: seq<Id>, b: seq<Id>, x: Id)
    requires NoneTwice(a + b) && x in a
    ensures x !in b
  {
    hide NoneTwice;
    if b != [] {
      var init, last := b[..|b| - 1], b[|b| - 1];
      assert (a + b)[..|a + b| - 1] == a + init && (a + b)[|a + b| - 1] == last;
      LastIsNew(a + b);
      Apart(a, init, x);
    }
  }

  lemma {:induction false} LastIsNew(ids: seq<Id>)
    requires NoneTwice(ids) && ids != []
    ensures NoneTwice(ids[..|ids| - 1]) && ids[|ids| - 1] !in ids[..|ids| - 1]
  {
  }

  // The next page is asked for with a bound one below the time of the last of the page before,
  // and bounds are exclusive. Whatever was updated at that time, or the second before, and is not
  // on the first page is in no answer, however many are asked for.
  lemma {:induction false} PassedOverIsLost(rows: seq<Id>, tracked: Tracked, n: nat, omitEmpty: bool, left: nat, x: Id)
    requires n > 0 && rows != [] && Dated(rows, TimesOf(tracked)) && Descending(Recent(rows, {}), TimesOf(tracked))
    requires var k := PageSize(n, omitEmpty); x in Skipped(Behind(rows, k), TimesOf(tracked), BoundBehind(rows, TimesOf(tracked), k))
    ensures x !in Pages(rows, tracked, n, omitEmpty, 0, 0, Taken([], {}), left)
  {
    hide *;
    var times, k := TimesOf(tracked), PageSize(n, omitEmpty);
    var page, behind, bound := Recent(Tail(rows, k), {}), Behind(rows, k), BoundBehind(rows, times, k);
    var skipped, older := Skipped(behind, times, bound), Older(behind, times, bound);
    var all := ReadByDefault(rows, times, k, left);
    DefaultPagesRead(rows, tracked, n, omitEmpty, left);
    ReadByDefaultIs(rows, times, k, left);
    TailThenBehind(rows, k);
    RecentIsDistinct(rows, {});
    SkippedThenOlder(behind, times, bound);
    RestNoneTwice(page, behind);
    Apart(skipped, older, x);
    if x in page { Apart(page, behind, x); }
    if x in Pages(rows, tracked, n, omitEmpty, 0, 0, Taken([], {}), left) {
      AmongFirst(ShownOf(all, tracked, omitEmpty), n, x);
      ShownMember(all, tracked, omitEmpty, x);
      ReadMember(older, times, k, left - 1, x);
    }
  }

  lemma AmongFirst(ids: seq<Id>, n: nat, x: Id)
    requires x in FirstN(ids, n)
    ensures x in ids
  {
  }

  // An input, for any number asked for: the log ends in as many updates of empty positions as
  // make a page, and the one before them was of a position that is not empty, at the time of the
  // first of them or a second before. It alone is to be shown, and nothing is.
  lemma {:induction false} PagingPassesOver(x: Id, page: seq<Id>, tracked: Tracked, n: nat, left: nat)
    requires n > 0 && |page| == PageSize(n, true) && x !in page && x in tracked && !IsEmpty(tracked[x])
    requires forall y :: y in page ==> y in tracked && IsEmpty(tracked[y])
    requires Dated([x] + page, TimesOf(tracked)) && Descending(Recent([x] + page, {}), TimesOf(tracked))
    requires TimeOf(TimesOf(tracked), x) >= TimeOf(TimesOf(tracked), page[0]) - 1
    ensures Pages([x] + page, tracked, n, true, 0, 0, Taken([], {}), left) == []
    ensures x in Recent([x] + page, {}) && Shown(tracked, true, x)
  {
    hide Recent, Pages, TimesOf, Descending, Skipped, Members, PageSize;
    var rows, k := [x] + page, PageSize(n, true);
    assert Tail(rows, k) == page && rows[0] == x;
    RecentMembers(rows, {}, x);
    OnlyBehind(x, page, k);
    NextIsSkipped(Behind(rows, k), TimesOf(tracked), BoundBehind(rows, TimesOf(tracked), k));
    PassedOverIsLost(rows, tracked, n, true, left, x);
    var answer := Pages(rows, tracked, n, true, 0, 0, Taken([], {}), left);
    if left == 0 {
      NoPagesLeft(rows, tracked, n);
    } else {
      PagesAreSound(rows, tracked, n, true, 0, 0, Taken([], {}), left, 0, 0, false);
      NoneToShow(answer, x, page, tracked);
    }
  }

  lemma NoneToShow(answer: seq<Id>, x: Id, page: seq<Id>, tracked: Tracked)
    requires forall y :: y in answer ==> y in [x] + page && Shown(tracked, true, y)
    requires x !in answer && forall y :: y in page ==> y in tracked && IsEmpty(tracked[y])
    ensures answer == []
  {
    if answer != [] {
      var y := OneOf(answer);
    }
  }

  lemma OneOf(ids: seq<Id>) returns (x: Id)
    requires ids != []
    ensures x in ids
  {
    x := ids[0];
  }

  lemma {:induction false} MembersAre(ids: seq<Id>)
    ensures forall y :: y in Members(ids) <==> y in ids
  {
    if ids != [] { MembersAre(ids[..|ids| - 1]); }
  }

  lemma OnlyBehind(x: Id, page: seq<Id>, k: nat)
    requires |page| == k > 0 && x !in page
    ensures Behind([x] + page, k) != [] && Behind([x] + page, k)[0] == x
  {
    hide Recent, Members;
    var behind := Behind([x] + page, k);
    assert Tail([x] + page, k) == page;
    MembersAre(page);
    RecentMembers([x] + page, Members(page), x);
    RecentMembers([x] + page, Members(page), behind[0]);
    assert behind[0] in behind;
  }

  lemma {:induction false} NextIsSkipped(behind: seq<Id>, times: Times, bound: int)
    requires behind != [] && TimeOf(times, behind[0]) >= bound
    ensures behind[0] in Skipped(behind, times, bound)
  {
  }

  lemma {:induction false} NoPagesLeft(rows: seq<Id>, tracked: Tracked, n: nat)
    ensures Pages(rows, tracked, n, true, 0, 0, Taken([], {}), 0) == []
  {
  }
}
