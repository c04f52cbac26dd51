// The candle queries of views/aggPool.go: the direct path from a pool's history, the hourly path,
// and what their candles say about the events of the pool.
module PoolCandles {
  import opened Basics
  import opened TradingHistory
  import opened Candles
  import opened HourlyCandles
  import opened CoarseCandles

  // ---------------------------------------------------------------------------------------------
  // Candles see no more of a history than the window they lie in

  lemma {:induction false} WindowWithin(R: seq<AccumPoolStats>, s: int, e: int, a: int, b: int)
    requires s <= a && b <= e
    ensures Window(Window(R, s, e), a, b) == Window(R, a, b)
  {
    if R != [] {
      var init, x := R[..|R| - 1], R[|R| - 1];
      WindowWithin(init, s, e, a, b);
      if s <= x.latestTime < e {
        WindowAppend(Window(init, s, e), x, a, b);
      }
    }
  }

  lemma {:induction false} WindowOrdered(R: seq<AccumPoolStats>, s: int, e: int)
    requires NotEarlier(R)
    ensures NotEarlier(Window(R, s, e)) && WindowInside(Window(R, s, e), s, e)
    ensures Window(R, s, e) != [] ==> R != [] && Window(R, s, e)[|Window(R, s, e)| - 1].latestTime <= R[|R| - 1].latestTime
  {
    if R != [] {
      var init, x := R[..|R| - 1], R[|R| - 1];
      WindowOrdered(init, s, e);
      if init != [] { assert init[|init| - 1] == R[|R| - 2]; }
      var W := Window(init, s, e);
      if s <= x.latestTime < e {
        assert (W + [x])[..|W|] == W;
      }
    }
  }

  predicate WindowInside(s: seq<AccumPoolStats>, lo: int, hi: int) {
    s == [] || (lo <= s[|s| - 1].latestTime < hi && WindowInside(s[..|s| - 1], lo, hi))
  }

  lemma {:induction false} InsideAt(s: seq<AccumPoolStats>, lo: int, hi: int, i: nat)
    requires WindowInside(s, lo, hi) && i < |s|
    ensures lo <= s[i].latestTime < hi
  {
    if i < |s| - 1 { InsideAt(s[..|s| - 1], lo, hi, i); }
  }

  // The state before t, for t in the window.
  lemma {:induction false} LastBeforeWithin(open: AccumPoolStats, R: seq<AccumPoolStats>, s: int, e: int, t: int)
    requires NotEarlier(R) && s <= t <= e
    ensures LastBefore(open, Window(R, s, e), t) == LastOf(open, Window(R, s, t))
  {
    hide Window, Before, NotEarlier;
    var W := Window(R, s, e);
    WindowOrdered(R, s, e);
    WindowWithin(R, s, e, s, t);
    WindowIsSlice(W, s, t);
    if W != [] { InsideAt(W, s, e, 0); }
    BeforeIs(W, s, 0);
  }

  lemma {:induction false} CandleWithin(open: AccumPoolStats, R: seq<AccumPoolStats>, s: int, e: int, a: int, b: int,
          period: int)
    requires NotEarlier(R) && s <= a <= b <= e && LastBefore(open, R, s) == open
    ensures CandleOver(open, Window(R, s, e), a, b, period) == CandleOver(open, R, a, b, period)
  {
    hide Window, Before, NotEarlier, LastBefore, CandleOf;
    LastBeforeWithin(open, R, s, e, a);
    Adjoining(open, R, s, a, a);
    WindowWithin(R, s, e, a, b);
  }

  lemma {:induction false} ClosedWithin(open: AccumPoolStats, R: seq<AccumPoolStats>, s: int, e: int, period: int, k: nat)
    requires NotEarlier(R) && period > 0 && (k == 0 || At(s, period, k) <= e) && LastBefore(open, R, s) == open
    ensures Closed(open, Window(R, s, e), s, period, k) == Closed(open, R, s, period, k)
  {
    hide CandleOver, Window, NotEarlier, LastBefore;
    if k > 0 {
      ClosedWithin(open, R, s, e, period, k - 1);
      AtNotBefore(s, period, k - 1);
      var from := At(s, period, k - 1);
      CandleWithin(open, R, s, e, from, from + period, period);
    }
  }

  // Candles that open in the same state are the same.
  lemma {:induction false} SameOpening(o: AccumPoolStats, p: AccumPoolStats, R: seq<AccumPoolStats>, s: int,
          period: int, k: nat)
    requires NotEarlier(R) && period > 0 && LastBefore(o, R, s) == LastBefore(p, R, s)
    ensures Closed(o, R, s, period, k) == Closed(p, R, s, period, k)
  {
    hide Window, NotEarlier, LastBefore, CandleOf;
    if k > 0 {
      SameOpening(o, p, R, s, period, k - 1);
      AtNotBefore(s, period, k - 1);
      var from := At(s, period, k - 1);
      Adjoining(o, R, s, from, from);
      Adjoining(p, R, s, from, from);
    }
  }

  // A series opens in the state the pool was in before it.
  lemma OpenIsLast(R: seq<AccumPoolStats>, s: int, e: int)
    ensures LastBefore(OpenOf(R, s, e), R, s) == OpenOf(R, s, e)
  {
  }

  // ---------------------------------------------------------------------------------------------
  // The direct path

  // How many intervals end before endTime.
  function EndingBefore(start: int, period: int, endTime: int): nat
    requires period > 0
    decreases if start < endTime then endTime - start else 0
  {
    if start + period < endTime then EndingBefore(start + period, period, endTime) + 1 else 0
  }

  lemma AtShift(start: int, period: int, k: nat)
    ensures At(start + period, period, k) == At(start, period, k + 1)
  {
    if k > 0 { AtShift(start, period, k - 1); }
  }

  lemma {:induction false} EndingBeforeIs(start: int, period: int, endTime: int, k: nat)
    requires period > 0 && endTime <= At(start, period, k) + period && (k == 0 || At(start, period, k) < endTime)
    ensures EndingBefore(start, period, endTime) == k
    decreases k
  {
    if k > 0 {
      AtRises(start, period, 0, k);
      AtShift(start, period, k - 1);
      EndingBeforeIs(start + period, period, endTime, k - 1);
    }
  }

  // Of a window of n periods the last one is not among them: it ends with the window.
  lemma {:induction false} AllButTheLast(start: int, period: int, n: nat)
    requires period > 0 && n > 0
    ensures EndingBefore(start, period, At(start, period, n)) == n - 1
  {
    EndingBeforeIs(start, period, At(start, period, n), n - 1);
  }

  // The remainder of Go's %, which takes the sign of the dividend.
  function Rem(a: int, b: int): int
    requires b > 0
  {
    if a >= 0 then a % b else -((-a) % b)
  }

  // The window of n periods from a given time, or up to now, both ends rounded towards 0.
  function QueryWindow(now: int, n: nat, period: int, start: Option<int>): (int, int)
    requires period > 0
  {
    var startTime := if start.Some? then start.value else now - n * period;
    var endTime := if start.Some? then start.value + n * period else now;
    (startTime - Rem(startTime, period), endTime - Rem(endTime, period))
  }

  // It starts on a period boundary, and is n periods long unless it starts before time 0.
  lemma {:induction false} WindowIsAligned(now: int, n: nat, period: int, start: Option<int>)
    requires period > 0 && (if start.Some? then start.value >= 0 else now - n * period >= 0)
    ensures var w := QueryWindow(now, n, period, start);
      w.0 >= 0 && w.0 == GroupStart(w.0, period) && w.1 == At(w.0, period, n)
  {
    var t := if start.Some? then start.value else now - n * period;
    GroupIdempotent(t, period);
    AtIs(GroupStart(t, period), period, n);
    GroupShift(t, n, period);
    GroupBounds(t, period);
    MulNonNegative(n, period);
  }

  // Where it lies: up to the last period boundary that is not after now; or from the last one that
  // is not after the given time.
  lemma WindowLies(now: int, n: nat, period: int, start: Option<int>)
    requires period > 0
    ensures var w := QueryWindow(now, n, period, start);
      && (start.None? && now >= n * period ==> w.1 <= now < w.1 + period && w.0 == w.1 - n * period)
      && (start.Some? && start.value >= 0 ==> w.0 <= start.value < w.0 + period && w.1 == w.0 + n * period)
      && (InTime(now, n, period, start) ==> w.0 % period == 0 && w.1 == At(w.0, period, n))
  {
    hide At, GroupStart;
    MulNonNegative(n, period);
    if InTime(now, n, period, start) {
      var w := QueryWindow(now, n, period, start);
      WindowIsAligned(now, n, period, start);
      AtIs(w.0, period, n);
      GroupAt(w.0, period);
    }
  }

  // The window does not start before time 0.
  predicate InTime(now: int, n: nat, period: int, start: Option<int>) {
    if start.Some? then start.value >= 0 else now >= n * period
  }

  lemma RoundingMonotone(a: int, b: int, period: int)
    requires period > 0 && a <= b
    ensures a - Rem(a, period) <= b - Rem(b, period)
  {
    hide GroupStart;
    RoundsToGroup(a, period);
    RoundsToGroup(b, period);
    if a >= 0 {
      GroupMonotone(a, b, period);
    } else if b < 0 {
      GroupMonotone(-b, -a, period);
    }
  }

  lemma RoundsToGroup(a: int, period: int)
    requires period > 0
    ensures a - Rem(a, period) == if a >= 0 then GroupStart(a, period) else -GroupStart(-a, period)
    ensures a >= 0 ==> GroupStart(a, period) >= 0
    ensures a < 0 ==> GroupStart(-a, period) >= 0
  {
    GroupBounds(a, period);
    GroupBounds(-a, period);
  }

  lemma MulNonNegative(n: nat, period: int)
    requires period > 0
    ensures n * period >= 0
  {
  }

  lemma GroupShift(t: int, n: nat, period: int)
    requires period > 0
    ensures GroupStart(t + n * period, period) == GroupStart(t, period) + n * period
  {
    var g := GroupStart(t, period);
    GroupIdempotent(t, period);
    AtGroups(g, period, n);
    AtIs(g, period, n);
    GroupUnique(t + n * period, g + n * period, period);
  }

  // The candles of [startTime, endTime) that end before endTime, from the first liquid one on.
  method DirectCandles(pos: PoolTradingHistory, startTime: int, endTime: int, period: int)
    returns (candles: seq<Candle>)
    requires pos.Valid() && TimeOrdered(pos.events) && period > 0 && startTime <= endTime
    ensures var R := Readable(pos.events);
      candles == Kept(Closed(OpenOf(R, startTime, endTime), R, startTime, period, EndingBefore(startTime, period, endTime)))
  {
    hide Closed, Kept, Window, OpenOf, Readable, NotEarlier, LastBefore;
    ghost var R := Readable(pos.events);
    ReadableOrdered(pos.events);
    WindowOrdered(R, startTime, endTime);
    var open, series := pos.RetrievePoolAccumSeries(startTime, endTime);
    var builder := new CandleBuilder(startTime, period, open);
    FeedAll(builder, series, startTime, endTime);
    ghost var fed := builder.closed;
    candles := builder.Close(endTime);
    ghost var k := builder.closed;
    EndingBeforeIs(startTime, period, endTime, k);
    if k > 0 { AtRises(startTime, period, 0, k); }
    OpenIsLast(R, startTime, endTime);
    ClosedWithin(open, R, startTime, endTime, period, k);
  }

  // The loop that feeds a series to a builder.
  method FeedAll(builder: CandleBuilder, series: seq<AccumPoolStats>, ghost lo: int, ghost hi: int)
    requires builder.Valid() && builder.start == lo && builder.fed == [] && builder.closed == 0
    requires NotEarlier(series) && WindowInside(series, lo, hi)
    modifies builder
    ensures builder.Valid() && builder.fed == series
    ensures builder.open == old(builder.open) && builder.start == lo && builder.period == old(builder.period)
    ensures builder.closed == 0 || At(lo, builder.period, builder.closed) < hi
  {
    hide Building;
    var i := 0;
    while i < |series|
      invariant 0 <= i <= |series| && builder.Valid() && builder.fed == series[..i]
      invariant builder.open == old(builder.open) && builder.start == lo && builder.period == old(builder.period)
      invariant i == 0 ==> builder.closed == 0
      invariant i > 0 ==> At(lo, builder.period, builder.closed) <= series[i - 1].latestTime < hi
    {
      if i > 0 { NotEarlierAt(series, i - 1, i); }
      InsideAt(series, lo, hi, i);
      builder.Increment(series[i]);
      assert series[..i + 1] == series[..i] + [series[i]];
      i := i + 1;
    }
    assert series[..|series|] == series;
  }

  // ---------------------------------------------------------------------------------------------
  // The hourly path

  lemma {:induction false} HoursFollow(open: AccumPoolStats, s: seq<AccumPoolStats>, t0: int, k: nat, d: nat)
    requires 0 <= t0 && d <= k
    ensures EveryHour(Closed(open, s, t0, HOUR, k)[d..])
    ensures k > 0 ==> Closed(open, s, t0, HOUR, k)[k - 1].time == At(t0, HOUR, k - 1)
  {
    hide CandleOver;
    if k > 0 {
      var cs, from := Closed(open, s, t0, HOUR, k), At(t0, HOUR, k - 1);
      HourTime(open, s, from);
      AtNotBefore(t0, HOUR, k - 1);
      if d < k {
        HoursFollow(open, s, t0, k - 1, d);
        assert cs[d..][..k - d - 1] == Closed(open, s, t0, HOUR, k - 1)[d..];
      }
    }
  }

  // How many hours from t0 on have ended by now.
  function HoursEnded(t0: int, now: int): nat {
    EndingBefore(t0, HOUR, now - now % HOUR + 1)
  }

  lemma {:induction false} HoursEndedIs(t0: int, now: int, k: nat)
    requires OnTheHour(t0) && now >= 0 && now < At(t0, HOUR, k) + HOUR && (k == 0 || At(t0, HOUR, k) <= now)
    ensures HoursEnded(t0, now) == k
  {
    AtOnTheHour(t0, 1, k);
    EndingBeforeIs(t0, HOUR, now - now % HOUR + 1, k);
  }

  // The first m hours of a history, from the one its first state is in.
  function FirstHour(R: seq<AccumPoolStats>): int
    requires R != []
  {
    GroupStart(R[0].latestTime, HOUR)
  }

  function Hours(R: seq<AccumPoolStats>, m: nat): seq<Candle>
    requires R != []
  {
    Closed(R[0], R, FirstHour(R), HOUR, m)
  }

  // What hourly candles were built of: so many events of the pool, and so many hours.
  datatype Mark = Mark(events: nat, hours: nat)

  // A cache of hourly candles, if there is one, is of the pool as it was after its first events.
  ghost predicate CachedAt(cache: seq<Candle>, es: seq<AggEvent>, mark: Mark) {
    cache != [] ==>
      mark.events <= |es| && Snaps(es[..mark.events]) != [] && cache == Kept(Hours(Readable(es[..mark.events]), mark.hours))
  }

  // What happened since happened after the cached hours.
  predicate NothingLate(es: seq<AggEvent>, mark: Mark) {
    mark.events < |es| ==> es[mark.events].time >= At(FirstHour(Readable(es[..mark.events])), HOUR, mark.hours)
  }

  // Further events leave a cache what it is.
  lemma CacheOutlivesEvents(cache: seq<Candle>, es: seq<AggEvent>, more: seq<AggEvent>, mark: Mark)
    requires CachedAt(cache, es, mark)
    ensures CachedAt(cache, es + more, mark)
  {
    hide Kept, Hours, Readable, Snaps;
    if cache != [] { assert (es + more)[..mark.events] == es[..mark.events]; }
  }

  lemma LaterEventKeepsHours(es: seq<AggEvent>, m: nat)
    requires TimeOrdered(es) && es != [] && Snaps(es[..|es| - 1]) != []
    requires es[|es| - 1].time >= At(FirstHour(Readable(es[..|es| - 1])), HOUR, m)
    ensures Snaps(es) != [] && Readable(es)[0] == Readable(es[..|es| - 1])[0]
    ensures Hours(Readable(es), m) == Hours(Readable(es[..|es| - 1]), m)
  {
    hide Closed, Fold;
    var init := es[..|es| - 1];
    var R, S := Readable(init), Readable(es);
    var t0 := FirstHour(R);
    FoldTime(es);
    FoldTime(init);
    StatesStep(es);
    ReadableOrdered(es);
    ReadableOrdered(init);
    if es[|es| - 1].time == init[|init| - 1].time {
      var P := R[..|R| - 1];
      assert R == P + [Fold(init)] && P[0] == R[0];
      ClosedStable(R[0], P, Fold(init), t0, HOUR, m);
      ClosedStable(R[0], P, Fold(es), t0, HOUR, m);
    } else {
      ClosedStable(R[0], R, Fold(es), t0, HOUR, m);
    }
  }

  // So long as nothing comes in late, the cached hours are the hours of the pool as it is.
  lemma {:induction false} CacheStaysRight(es: seq<AggEvent>, mark: Mark)
    requires TimeOrdered(es) && mark.events <= |es| && Snaps(es[..mark.events]) != [] && NothingLate(es, mark)
    ensures Snaps(es) != [] && Readable(es)[0] == Readable(es[..mark.events])[0]
    ensures Hours(Readable(es), mark.hours) == Hours(Readable(es[..mark.events]), mark.hours)
    decreases |es|
  {
    hide Hours, Readable, Snaps, FirstHour;
    if mark.events == |es| {
      assert es[..|es|] == es;
    } else {
      var init := es[..|es| - 1];
      assert init[..mark.events] == es[..mark.events];
      EventsInOrder(es, mark.events);
      CacheStaysRight(init, mark);
      SameFirstHour(init, es[..mark.events]);
      LaterEventKeepsHours(es, mark.hours);
    }
  }

  lemma {:induction false} EventsInOrder(es: seq<AggEvent>, i: nat)
    requires TimeOrdered(es) && i < |es|
    ensures es[i].time <= es[|es| - 1].time && TimeOrdered(es[..|es| - 1])
  {
    if i < |es| - 1 {
      EventsInOrder(es[..|es| - 1], i);
    }
  }

  lemma SameFirstHour(es: seq<AggEvent>, fs: seq<AggEvent>)
    requires Readable(es)[0] == Readable(fs)[0]
    ensures FirstHour(Readable(es)) == FirstHour(Readable(fs))
  {
  }

  // The refresh of a pool's hourly candles: all hours that have ended by now.
  method BuildHourlyCandles(pos: PoolTradingHistory, now: int) returns (candles: seq<Candle>)
    requires pos.Valid() && TimeOrdered(pos.events) && |pos.timeSnaps| > 0 && now >= 0
    ensures var R := Readable(pos.events); candles == Kept(Hours(R, HoursEnded(FirstHour(R), now)))
  {
    hide Closed, Kept, Window, OpenOf, Readable, NotEarlier, LastBefore, Building;
    ghost var R := Readable(pos.events);
    SnapsThenCounter(pos.events);
    ReadableOrdered(pos.events);
    var firstHourly := pos.timeSnaps[0].latestTime - pos.timeSnaps[0].latestTime % HOUR;
    var lastHourly := now - now % HOUR + 1;
    var builder := new CandleBuilder(firstHourly, HOUR, pos.timeSnaps[0]);
    FeedHistory(builder, pos, lastHourly);
    candles := builder.Close(lastHourly);
    ghost var k := builder.closed;
    EndingBeforeIs(firstHourly, HOUR, lastHourly, k);
    OpensInFirst(R, firstHourly);
    ClosedWithin(R[0], R, firstHourly, lastHourly, HOUR, k);
  }

  // The builder is fed the snapshots and the counter, as far as they are earlier than lastHourly.
  method FeedHistory(builder: CandleBuilder, pos: PoolTradingHistory, lastHourly: int)
    requires pos.Valid() && TimeOrdered(pos.events) && |pos.timeSnaps| > 0
    requires builder.Valid() && builder.fed == [] && builder.closed == 0 && builder.start <= pos.timeSnaps[0].latestTime
    modifies builder
    ensures builder.Valid() && builder.open == old(builder.open) && builder.start == old(builder.start) && builder.period == old(builder.period)
    ensures builder.fed == Window(Readable(pos.events), builder.start, lastHourly)
    ensures builder.closed == 0 || At(builder.start, builder.period, builder.closed) < lastHourly
  {
    hide Closed, Kept, Window, Readable, NotEarlier, LastBefore, Building;
    ghost var R, start := Readable(pos.events), builder.start;
    SnapsThenCounter(pos.events);
    ReadableOrdered(pos.events);
    assert R[..0] == [];
    WindowEmpty([], start, lastHourly);
    var i := 0;
    while i < |pos.timeSnaps|
      invariant 0 <= i <= |pos.timeSnaps| && builder.Valid()
      invariant builder.open == old(builder.open) && builder.start == start && builder.period == old(builder.period)
      invariant builder.fed == Window(R[..i], start, lastHourly)
      invariant FedUpTo(builder, R, i, lastHourly)
    {
      NotEarlierAt(R, 0, i);
      FeedNext(builder, R, i, lastHourly);
      if pos.timeSnaps[i].latestTime < lastHourly {
        builder.Increment(pos.timeSnaps[i]);
      }
      i := i + 1;
    }
    NotEarlierAt(R, 0, i);
    FeedNext(builder, R, i, lastHourly);
    if pos.statsCounter.latestTime < lastHourly {
      builder.Increment(pos.statsCounter);
    }
    assert R[..i + 1] == R;
  }

  // Nothing later than the state before R[i] has moved the builder on, and nothing after hi.
  ghost predicate FedUpTo(builder: CandleBuilder, R: seq<AccumPoolStats>, i: nat, hi: int)
    reads builder
  {
    && i <= |R|
    && (builder.closed == 0 ||
        (i > 0 && At(builder.start, builder.period, builder.closed) <= R[i - 1].latestTime
         && At(builder.start, builder.period, builder.closed) < hi))
  }

  lemma {:induction false} FeedNext(builder: CandleBuilder, R: seq<AccumPoolStats>, i: nat, hi: int)
    requires NotEarlier(R) && i < |R| && FedUpTo(builder, R, i, hi) && builder.start <= R[i].latestTime
    ensures At(builder.start, builder.period, builder.closed) <= R[i].latestTime
    ensures Window(R[..i + 1], builder.start, hi) == Window(R[..i], builder.start, hi) + if R[i].latestTime < hi then [R[i]] else []
  {
    hide NotEarlier;
    if i > 0 { NotEarlierAt(R, i - 1, i); }
    assert R[..i + 1] == R[..i] + [R[i]];
    WindowAppend(R[..i], R[i], builder.start, hi);
  }

  lemma {:induction false} SnapsThenCounter(es: seq<AggEvent>)
    ensures Readable(es) == Snaps(es) + [Fold(es)]
  {
  }

  lemma OpensInFirst(R: seq<AccumPoolStats>, t: int)
    requires R != [] && t <= R[0].latestTime
    ensures LastBefore(R[0], R, t) == R[0]
  {
    BeforeIs(R, t, 0);
  }

  lemma {:induction false} KeptHours(open: AccumPoolStats, s: seq<AccumPoolStats>, t0: int, k: nat)
    requires t0 >= 0
    ensures EveryHour(Kept(Closed(open, s, t0, HOUR, k)))
  {
    HoursFollow(open, s, t0, k, Dropped(Closed(open, s, t0, HOUR, k)));
  }

  // The latest candle replaces the last combined one when it is of the same time.
  function WithLatest(candles: seq<Candle>, latest: seq<Candle>): seq<Candle> {
    if latest == [] then candles
    else if candles != [] && latest[0].time == candles[|candles| - 1].time then candles[|candles| - 1 := latest[0]]
    else candles + [latest[0]]
  }

  // The candles a cache is combined to; a window that ends in the future gets a last candle of its
  // own.
  function HourlyAnswer(R: seq<AccumPoolStats>, cache: seq<Candle>, later: int, startTime: int, endTime: int, n: int,
          period: int): seq<Candle>
    requires period > 0
  {
    var combined, from := Combine(cache, startTime, endTime, n, period), endTime - 2 * period;
    if endTime <= later then combined
    else WithLatest(combined, Kept(Closed(OpenOf(R, from, from + period), R, from, period, 1)))
  }

  // What a query does to the cache: it is rebuilt when there is none or it is stale, if
  // the pool is known and has snapshots.
  ghost predicate Refreshed(pos: PoolTradingHistory?, cached: seq<Candle>, mark: Mark, stale: bool, now: int,
          cache: seq<Candle>, marked: Mark)
    reads pos
    requires pos != null ==> pos.Valid() && TimeOrdered(pos.events)
  {
    if (cached != [] && !stale) || pos == null || pos.timeSnaps == [] then cache == cached && marked == mark
    else
      var R := Readable(pos.events);
      marked == Mark(|pos.events|, HoursEnded(FirstHour(R), now)) && cache == Kept(Hours(R, marked.hours))
  }

  // As many hours as have ended by now, from the one the first state is in.
  ghost predicate UpToNow(R: seq<AccumPoolStats>, hours: nat, now: int)
    requires R != []
  {
    var first := R[0].latestTime - R[0].latestTime % 3600;
    if now < first + 3600 then hours == 0 else first + hours * 3600 <= now < first + hours * 3600 + 3600
  }

  lemma RebuiltUpToNow(R: seq<AccumPoolStats>, now: int)
    requires R != [] && now >= 0
    ensures UpToNow(R, HoursEnded(FirstHour(R), now), now)
  {
    hide HoursEnded;
    var t0 := FirstHour(R);
    GroupBounds(R[0].latestTime, HOUR);
    GroupAligned(R[0].latestTime, HOUR);
    var k := if now < t0 + HOUR then 0 else (now - t0) / HOUR;
    AtIs(t0, HOUR, k);
    HoursEndedIs(t0, now, k);
  }

  lemma {:induction false} CachedHours(cache: seq<Candle>, es: seq<AggEvent>, mark: Mark)
    requires TimeOrdered(es) && CachedAt(cache, es, mark)
    ensures EveryHour(cache)
  {
    hide Hours, Kept, Readable, EveryHour, Snaps;
    if cache == [] {
      NothingEveryHour();
    } else {
      PrefixOrdered(es, mark.events);
      HoursAreHours(es[..mark.events], mark.hours);
    }
  }

  lemma {:induction false} HoursAreHours(es: seq<AggEvent>, m: nat)
    requires TimeOrdered(es) && Snaps(es) != []
    ensures EveryHour(Kept(Hours(Readable(es), m)))
  {
    hide Closed, Kept, EveryHour;
    var R := Readable(es);
    ReadableOrdered(es);
    assert R[0] == Snaps(es)[0];
    FirstHourIs(R);
    KeptHours(R[0], R, FirstHour(R), m);
  }

  lemma NothingEveryHour()
    ensures EveryHour([])
  {
  }

  lemma {:induction false} PrefixOrdered(es: seq<AggEvent>, i: nat)
    requires TimeOrdered(es) && i <= |es|
    ensures TimeOrdered(es[..i])
  {
    if i < |es| {
      assert es[..|es| - 1][..i] == es[..i];
      PrefixOrdered(es[..|es| - 1], i);
    } else {
      assert es[..i] == es;
    }
  }

  lemma FirstHourIs(R: seq<AccumPoolStats>)
    requires R != [] && R[0].latestTime >= 0
    ensures FirstHour(R) >= 0 && OnTheHour(FirstHour(R))
  {
    GroupBounds(R[0].latestTime, HOUR);
  }

  // Candles of whole hours out of the pool's hourly candles.
  method FastHourlyCandles(pos: PoolTradingHistory?, cached: seq<Candle>, ghost mark: Mark, stale: bool, now: int,
          later: int, period: int, startTime: int, endTime: int, n: int)
    returns (candles: seq<Candle>, cache: seq<Candle>, ghost marked: Mark)
    requires if pos == null then cached == [] else pos.Valid() && TimeOrdered(pos.events) && CachedAt(cached, pos.events, mark)
    requires now >= 0 && period > 0 && period % HOUR == 0
    ensures Refreshed(pos, cached, mark, stale, now, cache, marked)
    ensures cached != [] && !stale ==> cache == cached && marked == mark
    ensures (cached == [] || stale) && pos != null && pos.timeSnaps != [] ==>
      marked.events == |pos.events| && UpToNow(Readable(pos.events), marked.hours, now)
    ensures pos != null ==> CachedAt(cache, pos.events, marked)
    ensures EveryHour(cache)
    ensures candles ==
      if (cached == [] || stale) && (pos == null || pos.timeSnaps == []) then []
      else HourlyAnswer(Readable(pos.events), cache, later, startTime, endTime, n, period)
  {
    hide Closed, Kept, OpenOf, Combine, EveryHour, Hours, HoursEnded, FirstHour, Snaps, Fold, UpToNow;
    cache, marked := cached, mark;
    NothingEveryHour();
    if pos != null { CachedHours(cache, pos.events, mark); }
    if |cached| == 0 || stale {
      if pos == null || |pos.timeSnaps| == 0 {
        return [], cached, mark;
      }
      cache := BuildHourlyCandles(pos, now);
      RebuiltUpToNow(Readable(pos.events), now);
      marked := Mark(|pos.events|, HoursEnded(FirstHour(Readable(pos.events)), now));
      assert pos.events[..|pos.events|] == pos.events;
    }
    CachedHours(cache, pos.events, marked);
    var hours := period / HOUR;
    candles := CombineHourlyCandles(cache, hours, startTime, endTime, n);
    if endTime > later {
      var latest := LatestCandle(pos, period, endTime);
      if |latest| > 0 {
        if |candles| > 0 && latest[0].time == candles[|candles| - 1].time {
          candles := candles[|candles| - 1 := latest[0]];
        } else {
          candles := candles + [latest[0]];
        }
      }
    }
  }

  // The series stops a period before the builder is closed, so that just one candle ends in time.
  method LatestCandle(pos: PoolTradingHistory, period: int, endTime: int) returns (latest: seq<Candle>)
    requires pos.Valid() && TimeOrdered(pos.events) && period > 0
    ensures var R := Readable(pos.events);
      latest == Kept(Closed(OpenOf(R, endTime - 2 * period, endTime - period), R, endTime - 2 * period, period, 1))
  {
    hide Closed, Kept, Window, OpenOf, Readable, NotEarlier, LastBefore;
    ghost var R := Readable(pos.events);
    ReadableOrdered(pos.events);
    var start, end := endTime - period * 2, endTime - period;
    WindowOrdered(R, start, end);
    var open, series := pos.RetrievePoolAccumSeries(start, end);
    var builder := new CandleBuilder(start, period, open);
    FeedAll(builder, series, start, end);
    latest := builder.Close(endTime);
    OneCloses(start, period, builder.closed);
    OpenIsLast(R, start, end);
    ClosedWithin(open, R, start, end, period, 1);
  }

  lemma {:induction false} OneCloses(start: int, period: int, k: nat)
    requires period > 0 && start + 2 * period <= At(start, period, k) + period
    requires k == 0 || At(start, period, k) < start + 2 * period
    ensures k == 1
  {
    if k > 1 { AtRises(start, period, 1, k); }
  }

  // ---------------------------------------------------------------------------------------------
  // The times of an answer

  // The direct path lists the periods of the window from some one on to the last but one.
  lemma {:induction false} KeptTimes(open: AccumPoolStats, s: seq<AccumPoolStats>, start: int, period: int, k: nat)
    requires period > 0 && start % period == 0
    ensures var cs := Kept(Closed(open, s, start, period, k));
      && EveryPeriod(cs, start, At(start, period, k), period)
      && (cs != [] ==> cs[|cs| - 1].time + period == At(start, period, k))
  {
    hide CandleOver, At, Kept, Closed, Dropped;
    var all := Closed(open, s, start, period, k);
    var cs, d := Kept(all), k - |Kept(all)|;
    KeptFromFirstLiquid(all);
    forall i | 0 <= i < |cs|
      ensures cs[i].time == At(start, period, d + i) && start <= cs[i].time < At(start, period, k) && cs[i].time % period == 0
    {
      ClosedTime(open, s, start, period, k, d + i);
    }
    forall i | 0 < i < |cs| ensures cs[i].time == cs[i - 1].time + period { AtNext(start, period, d + i - 1); }
    if cs != [] { AtNext(start, period, k - 1); }
  }

  lemma {:induction false} ClosedTime(open: AccumPoolStats, s: seq<AccumPoolStats>, start: int, period: int, k: nat, i: nat)
    requires period > 0 && start % period == 0 && i < k
    ensures Closed(open, s, start, period, k)[i].time == At(start, period, i)
    ensures start <= At(start, period, i) < At(start, period, k) && At(start, period, i) % period == 0
  {
    hide CandleOver, At, Closed;
    ClosedAt(open, s, start, period, k, i);
    CandleTime(open, s, At(start, period, i), At(start, period, i) + period, period);
    AtNotBefore(start, period, i);
    AtRises(start, period, i, k);
    GroupAt(start, period);
    AtGroups(start, period, i);
    GroupAt(At(start, period, i), period);
  }

  lemma {:induction false} AtStart(start: int, period: int)
    ensures At(start, period, 0) == start
  {
  }

  lemma AtNext(start: int, period: int, k: nat)
    ensures At(start, period, k + 1) == At(start, period, k) + period
  {
  }

  // What an answer for the window [begin, end) lists: directly, one candle a period up to the last
  // period but one; out of hours, one candle a period, and maybe the last period's but one at the
  // end of it all.
  ghost predicate ListsWindow(candles: seq<Candle>, begin: int, end: int, later: int, period: int)
    requires period > 0
  {
    if period % 3600 != 0 then
      EveryPeriod(candles, begin, end - period, period) && (candles != [] ==> candles[|candles| - 1].time == end - 2 * period)
    else
      || EveryPeriod(candles, begin, end, period)
      || (later < end && candles != [] && candles[|candles| - 1].time == end - 2 * period
          && EveryPeriod(candles[..|candles| - 1], begin, end, period))
  }

  lemma {:induction false} DirectLists(R: seq<AccumPoolStats>, begin: int, end: int, later: int, n: nat, period: int)
    requires period > 0 && period % 3600 != 0 && begin % period == 0 && end == At(begin, period, n)
    ensures ListsWindow(Kept(Closed(OpenOf(R, begin, end), R, begin, period, EndingBefore(begin, period, end))), begin, end, later, period)
  {
    hide Closed, Kept, OpenOf, EndingBefore, EveryPeriod, Dropped;
    if n > 0 {
      AllButTheLast(begin, period, n);
      KeptTimes(OpenOf(R, begin, end), R, begin, period, n - 1);
      AtNext(begin, period, n - 1);
    } else {
      EndingBeforeIs(begin, period, end, 0);
      KeptTimes(OpenOf(R, begin, end), R, begin, period, 0);
      NoPeriods(begin, end - period, period);
      KeptFromFirstLiquid(Closed(OpenOf(R, begin, end), R, begin, period, 0));
    }
  }

  lemma {:induction false} HourlyLists(R: seq<AccumPoolStats>, cache: seq<Candle>, later: int, begin: int, end: int, n: nat,
          period: int)
    requires period > 0 && period % 3600 == 0 && begin % period == 0 && end == At(begin, period, n) && EveryHour(cache)
    ensures ListsWindow(HourlyAnswer(R, cache, later, begin, end, n, period), begin, end, later, period)
    ensures CoversHours(HourlyAnswer(R, cache, later, begin, end, n, period), cache, begin, end, period)
  {
    hide Combine, OpenOf, EveryPeriod, EveryHour, At, Kept, Closed, CoversHours;
    var combined := Combine(cache, begin, end, n, period);
    CombineTimes(cache, begin, end, n, period);
    CombineCovers(cache, begin, n, period);
    var from := end - 2 * period;
    var latest := Kept(Closed(OpenOf(R, from, from + period), R, from, period, 1));
    LatestTime(OpenOf(R, from, from + period), R, from, period);
    WithLatestLists(combined, latest, cache, begin, end, period);
  }

  lemma {:induction false} LatestTime(open: AccumPoolStats, s: seq<AccumPoolStats>, from: int, period: int)
    ensures var latest := Kept(Closed(open, s, from, period, 1)); latest != [] ==> latest[0].time == from
  {
    hide CandleOver, At, Kept, Closed;
    var all := Closed(open, s, from, period, 1);
    ClosedAt(open, s, from, period, 1, 0);
    AtStart(from, period);
    CandleTime(open, s, from, from + period, period);
    OneOrNone(all);
  }

  lemma OneOrNone(all: seq<Candle>)
    requires |all| == 1
    ensures Kept(all) == [] || Kept(all) == all
  {
    hide Kept;
    KeptFromFirstLiquid(all);
  }

  lemma WithLatestLists(combined: seq<Candle>, latest: seq<Candle>, cache: seq<Candle>, begin: int, end: int, period: int)
    requires period > 0 && EveryPeriod(combined, begin, end, period) && CoversHours(combined, cache, begin, end, period)
    requires latest != [] ==> latest[0].time == end - 2 * period
    ensures var answer := WithLatest(combined, latest);
      && (EveryPeriod(answer, begin, end, period) ||
          (answer != [] && answer[|answer| - 1].time == end - 2 * period && EveryPeriod(answer[..|answer| - 1], begin, end, period)))
      && CoversHours(answer, cache, begin, end, period)
  {
    hide CoversHours, EveryPeriod;
    var answer := WithLatest(combined, latest);
    StillCovers(combined, answer, cache, begin, end, period);
    if |answer| > |combined| {
      assert answer[..|answer| - 1] == combined;
    } else {
      SamePeriods(combined, answer, begin, end, period);
    }
  }

  lemma SamePeriods(a: seq<Candle>, b: seq<Candle>, begin: int, end: int, period: int)
    requires period > 0 && |a| == |b| && (forall i :: 0 <= i < |a| ==> b[i].time == a[i].time) && EveryPeriod(a, begin, end, period)
    ensures EveryPeriod(b, begin, end, period)
  {
  }

  lemma StillCovers(a: seq<Candle>, b: seq<Candle>, hours: seq<Candle>, begin: int, end: int, period: int)
    requires |a| <= |b| && (forall i :: 0 <= i < |a| ==> b[i].time == a[i].time) && CoversHours(a, hours, begin, end, period)
    ensures CoversHours(b, hours, begin, end, period)
  {
    forall k | 0 <= k < |hours| && begin <= hours[k].time < end
      ensures exists i :: 0 <= i < |b| && b[i].time <= hours[k].time < b[i].time + period
    {
      var i :| 0 <= i < |a| && a[i].time <= hours[k].time < a[i].time + period;
      assert b[i].time == a[i].time;
    }
  }

  // The query: periods of whole hours are served by the hourly path, all others directly. A pool
  // that is not known has no candles.
  method QueryPoolCandles(pos: PoolTradingHistory?, cached: seq<Candle>, ghost mark: Mark, stale: bool, now: int,
          refreshed: int, later: int, n: nat, period: int, start: Option<int>)
    returns (candles: seq<Candle>, cache: seq<Candle>, ghost marked: Mark)
    requires if pos == null then cached == [] else pos.Valid() && TimeOrdered(pos.events) && CachedAt(cached, pos.events, mark)
    requires refreshed >= 0 && period > 0
    ensures pos == null ==> candles == []
    ensures pos != null ==> CachedAt(cache, pos.events, marked)
    ensures period % HOUR != 0 ==> cache == cached && marked == mark
    ensures period % HOUR != 0 && pos != null ==>
      var R, w := Readable(pos.events), QueryWindow(now, n, period, start);
      candles == Kept(Closed(OpenOf(R, w.0, w.1), R, w.0, period, EndingBefore(w.0, period, w.1)))
    ensures period % HOUR == 0 ==> Refreshed(pos, cached, mark, stale, refreshed, cache, marked)
    ensures period % HOUR == 0 && cached != [] && !stale ==> cache == cached && marked == mark
    ensures period % HOUR == 0 && (cached == [] || stale) && pos != null && pos.timeSnaps != [] ==>
      marked.events == |pos.events| && UpToNow(Readable(pos.events), marked.hours, refreshed)
    ensures period % HOUR == 0 ==>
      var w := QueryWindow(now, n, period, start);
      candles ==
        if (cached == [] || stale) && (pos == null || pos.timeSnaps == []) then []
        else HourlyAnswer(Readable(pos.events), cache, later, w.0, w.1, n, period)
    ensures var w := QueryWindow(now, n, period, start);
      && (start.None? && now >= n * period ==> w.1 <= now < w.1 + period && w.0 == w.1 - n * period)
      && (start.Some? && start.value >= 0 ==> w.0 <= start.value < w.0 + period && w.1 == w.0 + n * period)
      && (InTime(now, n, period, start) ==> ListsWindow(candles, w.0, w.1, later, period))
      && (InTime(now, n, period, start) && period % 3600 == 0 && !((cached == [] || stale) && (pos == null || pos.timeSnaps == [])) ==>
            CoversHours(candles, cache, w.0, w.1, period))
  {
    hide Closed, Kept, OpenOf, Readable, Combine, EveryHour, Building, HourlyAnswer, CachedAt, Refreshed, ListsWindow, CoversHours,
      UpToNow, EndingBefore, EveryPeriod, At;
    cache, marked := cached, mark;
    var startTime := now - n * period;
    var endTime := now;
    if start.Some? {
      startTime := start.value;
      endTime := startTime + n * period;
    }
    MulNonNegative(n, period);
    RoundingMonotone(startTime, endTime, period);
    startTime := startTime - Rem(startTime, period);
    endTime := endTime - Rem(endTime, period);
    if period >= 3600 && period % 3600 == 0 {
      candles, cache, marked := FastHourlyCandles(pos, cached, mark, stale, refreshed, later, period, startTime, endTime, n);
    } else if pos == null {
      var builder := new CandleBuilder(startTime, period, ZERO_STATS);
      candles := builder.Close(endTime);
      NothingKept(startTime, period, builder.closed);
    } else {
      candles := DirectCandles(pos, startTime, endTime, period);
    }
    WindowLies(now, n, period, start);
    if InTime(now, n, period, start) {
      AnswerLists(pos, candles, cache, later, startTime, endTime, n, period);
    }
  }

  // Whatever the path.
  lemma {:induction false} AnswerLists(pos: PoolTradingHistory?, candles: seq<Candle>, cache: seq<Candle>, later: int,
          begin: int, end: int, n: nat, period: int)
    requires period > 0 && begin % period == 0 && end == At(begin, period, n)
    requires candles == [] ||
      (pos != null &&
       candles == if period % HOUR != 0
         then Kept(Closed(OpenOf(Readable(pos.events), begin, end), Readable(pos.events), begin, period, EndingBefore(begin, period, end)))
         else HourlyAnswer(Readable(pos.events), cache, later, begin, end, n, period))
    requires period % HOUR == 0 ==> EveryHour(cache)
    ensures ListsWindow(candles, begin, end, later, period)
    ensures pos != null && period % HOUR == 0 && candles == HourlyAnswer(Readable(pos.events), cache, later, begin, end, n, period) ==>
      CoversHours(candles, cache, begin, end, period)
  {
    hide Closed, Kept, OpenOf, Readable, Combine, EveryHour, HourlyAnswer, CoversHours, EndingBefore, EveryPeriod, At;
    NoPeriods(begin, end, period);
    NoPeriods(begin, end - period, period);
    if pos != null {
      if period % HOUR != 0 {
        DirectLists(Readable(pos.events), begin, end, later, n, period);
      } else {
        HourlyLists(Readable(pos.events), cache, later, begin, end, n, period);
      }
    }
  }

  lemma {:induction false} NothingKept(start: int, period: int, k: nat)
    ensures Kept(Closed(ZERO_STATS, [], start, period, k)) == []
    ensures Dropped(Closed(ZERO_STATS, [], start, period, k)) == k
  {
    if k > 0 {
      NothingKept(start, period, k - 1);
      var from := At(start, period, k - 1);
      var cs := Closed(ZERO_STATS, [], start, period, k);
      CandleAfter(ZERO_STATS, [], from, from + period, period);
      assert cs[..k - 1] == Closed(ZERO_STATS, [], start, period, k - 1);
    }
  }
}
