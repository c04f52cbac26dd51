// When the cached hourly candles of a pool (views/aggPool.go) are still those of the pool: exactly
// which events that come in late leave them as they are.
module CachedHours {
  import opened TradingHistory
  import opened Candles
  import opened HourlyCandles
  import opened CoarseCandles
  import opened PoolCandles
  import opened CandlePaths

  // What a candle shows of the state it closes in.
  predicate SameFigures(a: AccumPoolStats, b: AccumPoolStats) {
    && a.lastPriceSwap == b.lastPriceSwap && a.feeRate == b.feeRate
    && a.baseVolume == b.baseVolume && a.quoteVolume == b.quoteVolume && a.baseTvl == b.baseTvl && a.quoteTvl == b.quoteTvl
  }

  predicate PricesWithin(s: seq<AccumPoolStats>, low: real, high: real) {
    forall i :: 0 <= i < |s| ==> low <= s[i].lastPriceSwap <= high
  }

  // The hour [from, to) of a pool in states s ends with the figures of x, the state it was in when
  // the candle of that hour was cached, and has since had no price the candle has not.
  predicate HourHolds(open: AccumPoolStats, s: seq<AccumPoolStats>, x: AccumPoolStats, c: Candle, from: int, to: int) {
    && SameFigures(LastBefore(open, s, to), x)
    && PricesWithin(Window(s, MaxOf(from, x.latestTime), to), c.minPrice, c.maxPrice)
  }

  // So it is for every cached hour that ends after x.
  predicate HoursHold(open: AccumPoolStats, s: seq<AccumPoolStats>, x: AccumPoolStats, cached: seq<Candle>, t0: int) {
    forall k :: 0 <= k < |cached| && x.latestTime < At(t0, HOUR, k) + HOUR ==>
      HourHolds(open, s, x, cached[k], At(t0, HOUR, k), At(t0, HOUR, k) + HOUR)
  }

  lemma {:induction false} LowestFrom(o: AccumPoolStats, s: seq<AccumPoolStats>, low: real)
    ensures Lowest(o, s) >= low <==> o.lastPriceSwap >= low && forall i :: 0 <= i < |s| ==> s[i].lastPriceSwap >= low
    ensures s != [] ==> Lowest(o, s) <= s[|s| - 1].lastPriceSwap
  {
    if s != [] { LowestFrom(o, s[..|s| - 1], low); }
  }

  lemma {:induction false} HighestTo(o: AccumPoolStats, s: seq<AccumPoolStats>, high: real)
    ensures Highest(o, s) <= high <==> o.lastPriceSwap <= high && forall i :: 0 <= i < |s| ==> s[i].lastPriceSwap <= high
    ensures s != [] ==> Highest(o, s) >= s[|s| - 1].lastPriceSwap
  {
    if s != [] { HighestTo(o, s[..|s| - 1], high); }
  }

  // States of the same time or later instead of x, in the candle that x was the last of.
  lemma SameIfHeld(o: AccumPoolStats, A: seq<AccumPoolStats>, x: AccumPoolStats, B: seq<AccumPoolStats>, time: int, period: int)
    requires B != []
    ensures var c := CandleOf(o, A + [x], time, period);
      CandleOf(o, A + B, time, period) == c <==>
        SameFigures(LastOf(LastOf(o, A), B), x) && PricesWithin(B, c.minPrice, c.maxPrice)
  {
    hide Lowest, Highest;
    var c, p := CandleOf(o, A + [x], time, period), LastOf(o, A);
    Extremes(o, A, [x]);
    Extremes(o, A, B);
    OneState(p, x);
    LowestFrom(o, A, Lowest(o, A));
    HighestTo(o, A, Highest(o, A));
    LowestFrom(p, B, c.minPrice);
    HighestTo(p, B, c.maxPrice);
  }

  lemma {:induction false} OneState(p: AccumPoolStats, x: AccumPoolStats)
    ensures Lowest(p, [x]) == if x.lastPriceSwap < p.lastPriceSwap then x.lastPriceSwap else p.lastPriceSwap
    ensures Highest(p, [x]) == if x.lastPriceSwap > p.lastPriceSwap then x.lastPriceSwap else p.lastPriceSwap
  {
    assert [x][..0] == [];
  }

  // A candle that opens with the same figures after x.
  lemma SameIfStill(x: AccumPoolStats, o: AccumPoolStats, B: seq<AccumPoolStats>, time: int, period: int)
    requires SameFigures(o, x)
    ensures var c := CandleOf(x, [], time, period);
      CandleOf(o, B, time, period) == c <==> SameFigures(LastOf(o, B), x) && PricesWithin(B, c.minPrice, c.maxPrice)
  {
    hide Lowest, Highest;
    assert Lowest(x, []) == x.lastPriceSwap == Highest(x, []) by { LowestFrom(x, [], x.lastPriceSwap); NoStates(x); }
    LowestFrom(o, B, x.lastPriceSwap);
    HighestTo(o, B, x.lastPriceSwap);
    LowestFrom(o, B, Lowest(o, B));
    HighestTo(o, B, Highest(o, B));
  }

  lemma {:induction false} NoStates(x: AccumPoolStats)
    ensures Lowest(x, []) == Highest(x, []) == x.lastPriceSwap
  {
  }

  // ---------------------------------------------------------------------------------------------
  // Two histories that part at x

  // P and then x, against P and then others, the first of them of the time of x.
  ghost predicate PartAt(P: seq<AccumPoolStats>, x: AccumPoolStats, Q: seq<AccumPoolStats>) {
    && P != [] && P[|P| - 1].latestTime < x.latestTime
    && Q != [] && Q[0].latestTime == x.latestTime
    && NotEarlier(P + [x]) && NotEarlier(P + Q)
  }

  // What lies before x is the same for both.
  lemma {:induction false} SameBefore(P: seq<AccumPoolStats>, Q: seq<AccumPoolStats>, t: int)
    requires NotEarlier(P + Q) && Q != [] && t <= Q[0].latestTime
    ensures Before(P + Q, t) == Before(P, t)
  {
    var S := P + Q;
    BeforeSplits(P, t);
    BeforeIs(S, t, Before(P, t));
  }

  lemma {:induction false} BothBefore(P: seq<AccumPoolStats>, x: AccumPoolStats, Q: seq<AccumPoolStats>, from: int, to: int)
    requires PartAt(P, x, Q) && from <= to <= x.latestTime
    ensures Window(P + Q, from, to) == Window(P + [x], from, to)
    ensures LastBefore(P[0], P + Q, from) == LastBefore(P[0], P + [x], from)
  {
    hide Window, Before, NotEarlier;
    var S, R := P + Q, P + [x];
    SameBefore(P, Q, from);
    SameBefore(P, Q, to);
    SameBefore(P, [x], from);
    SameBefore(P, [x], to);
    WindowIsSlice(S, from, to);
    WindowIsSlice(R, from, to);
    var i, j := Before(P, from), Before(P, to);
    assert S[i..j] == P[i..j] == R[i..j];
    assert S[..i] == P[..i] == R[..i];
  }

  // From the time of x on there are only x and only the others.
  lemma {:induction false} BothAfter(P: seq<AccumPoolStats>, x: AccumPoolStats, Q: seq<AccumPoolStats>, to: int)
    requires PartAt(P, x, Q) && x.latestTime < to
    ensures Window(P + [x], x.latestTime, to) == [x] && LastBefore(P[0], P + [x], to) == x
    ensures Window(P + Q, x.latestTime, to) != []
  {
    hide Window, Before, NotEarlier;
    var R, S, n := P + [x], P + Q, |P|;
    WindowIsSlice(R, x.latestTime, to);
    WindowIsSlice(S, x.latestTime, to);
    BeforeIsSplit(R, x.latestTime, n);
    BeforeIsSplit(S, x.latestTime, n);
    BeforeIsSplit(R, to, n + 1);
    BeforeSplits(S, to);
    assert R[..n + 1] == R && R[n..] == [x];
  }

  // The hour of x, and those after it.
  lemma HourOfX(P: seq<AccumPoolStats>, x: AccumPoolStats, Q: seq<AccumPoolStats>, from: int)
    requires PartAt(P, x, Q) && from <= x.latestTime < from + HOUR
    ensures var c := CandleOver(P[0], P + [x], from, from + HOUR, HOUR);
      CandleOver(P[0], P + Q, from, from + HOUR, HOUR) == c <==> HourHolds(P[0], P + Q, x, c, from, from + HOUR)
  {
    hide Window, LastBefore, NotEarlier, Lowest, Highest, SameFigures, PricesWithin;
    var R, S, t, to := P + [x], P + Q, x.latestTime, from + HOUR;
    BothBefore(P, x, Q, from, t);
    BothAfter(P, x, Q, to);
    Adjoining(P[0], R, from, t, to);
    Adjoining(P[0], S, from, t, to);
    Adjoining(P[0], S, t, to, to);
    var o, A, B := LastBefore(P[0], S, from), Window(S, from, t), Window(S, t, to);
    SameIfHeld(o, A, x, B, from, HOUR);
  }

  lemma HourAfterX(P: seq<AccumPoolStats>, x: AccumPoolStats, Q: seq<AccumPoolStats>, from: int)
    requires PartAt(P, x, Q) && x.latestTime < from && SameFigures(LastBefore(P[0], P + Q, from), x)
    ensures var c := CandleOver(P[0], P + [x], from, from + HOUR, HOUR);
      CandleOver(P[0], P + Q, from, from + HOUR, HOUR) == c <==> HourHolds(P[0], P + Q, x, c, from, from + HOUR)
  {
    hide Window, LastBefore, NotEarlier, Lowest, Highest, SameFigures, PricesWithin;
    var R, S, to := P + [x], P + Q, from + HOUR;
    BothAfter(P, x, Q, from);
    NothingAfter(P, x, from, to);
    Adjoining(P[0], S, from, to, to);
    SameIfStill(x, LastBefore(P[0], S, from), Window(S, from, to), from, HOUR);
  }

  lemma {:induction false} NothingAfter(P: seq<AccumPoolStats>, x: AccumPoolStats, from: int, to: int)
    requires NotEarlier(P + [x]) && x.latestTime < from
    ensures Window(P + [x], from, to) == []
  {
    AllEarlier(P + [x], from, to);
  }

  // The first m hours of both are the same if and only if those that end after x hold.
  lemma {:induction false} HoursStayExactly(P: seq<AccumPoolStats>, x: AccumPoolStats, Q: seq<AccumPoolStats>, t0: int, m: nat)
    requires PartAt(P, x, Q) && t0 <= x.latestTime
    ensures var cached := Closed(P[0], P + [x], t0, HOUR, m);
      Closed(P[0], P + Q, t0, HOUR, m) == cached <==> HoursHold(P[0], P + Q, x, cached, t0)
  {
    hide CandleOver, LastBefore, HourHolds, NotEarlier, HoursHold;
    if m == 0 {
      NoneHold(P[0], P + Q, x, t0);
    } else {
      HoursStayExactly(P, x, Q, t0, m - 1);
      var from, S := At(t0, HOUR, m - 1), P + Q;
      var before, c := Closed(P[0], P + [x], t0, HOUR, m - 1), CandleOver(P[0], P + [x], from, from + HOUR, HOUR);
      OneMoreHolds(P[0], S, x, before, c, t0);
      SameEnds(Closed(P[0], S, t0, HOUR, m - 1), before, CandleOver(P[0], S, from, from + HOUR, HOUR), c);
      if from + HOUR <= x.latestTime {
        HourBeforeX(P, x, Q, from);
      } else if from <= x.latestTime {
        HourOfX(P, x, Q, from);
      } else if HoursHold(P[0], S, x, before, t0) {
        EndsAlike(P[0], S, x, before, t0);
        HourAfterX(P, x, Q, from);
      }
    }
  }

  lemma NoneHold(open: AccumPoolStats, s: seq<AccumPoolStats>, x: AccumPoolStats, t0: int)
    ensures HoursHold(open, s, x, [], t0)
  {
  }

  lemma OneMoreHolds(open: AccumPoolStats, s: seq<AccumPoolStats>, x: AccumPoolStats, cached: seq<Candle>, c: Candle, t0: int)
    ensures var from := At(t0, HOUR, |cached|);
      HoursHold(open, s, x, cached + [c], t0) <==>
        HoursHold(open, s, x, cached, t0) && (x.latestTime < from + HOUR ==> HourHolds(open, s, x, c, from, from + HOUR))
  {
    hide HourHolds, At;
    var all := cached + [c];
    assert all[|cached|] == c && forall k :: 0 <= k < |cached| ==> all[k] == cached[k];
    if HoursHold(open, s, x, all, t0) {
      forall k | 0 <= k < |cached| && x.latestTime < At(t0, HOUR, k) + HOUR
        ensures HourHolds(open, s, x, cached[k], At(t0, HOUR, k), At(t0, HOUR, k) + HOUR)
      {
        assert all[k] == cached[k];
      }
    }
  }

  // The next hour opens with the figures of x.
  lemma EndsAlike(open: AccumPoolStats, s: seq<AccumPoolStats>, x: AccumPoolStats, cached: seq<Candle>, t0: int)
    requires HoursHold(open, s, x, cached, t0) && t0 <= x.latestTime < At(t0, HOUR, |cached|)
    ensures SameFigures(LastBefore(open, s, At(t0, HOUR, |cached|)), x)
  {
    hide SameFigures, LastBefore;
    var k := |cached| - 1;
    assert HourHolds(open, s, x, cached[k], At(t0, HOUR, k), At(t0, HOUR, k) + HOUR);
  }

  lemma HourBeforeX(P: seq<AccumPoolStats>, x: AccumPoolStats, Q: seq<AccumPoolStats>, from: int)
    requires PartAt(P, x, Q) && from + HOUR <= x.latestTime
    ensures CandleOver(P[0], P + Q, from, from + HOUR, HOUR) == CandleOver(P[0], P + [x], from, from + HOUR, HOUR)
  {
    hide Window, LastBefore, NotEarlier, Lowest, Highest;
    BothBefore(P, x, Q, from, from + HOUR);
  }

  // ---------------------------------------------------------------------------------------------
  // The same of events

  // What a history keeps of the history of its first events: the snapshots, and in the place of
  // the counter a state of the same time.
  lemma {:induction false} HistoryGrows(es: seq<AggEvent>, k: nat)
    requires TimeOrdered(es) && 0 < k <= |es|
    ensures TimeOrdered(es[..k]) && Fold(es[..k]).latestTime > 0
    ensures Snaps(es[..k]) <= Snaps(es)
    ensures Readable(es)[|Snaps(es[..k])|].latestTime == Fold(es[..k]).latestTime
    decreases |es|
  {
    hide Fold;
    FoldTime(es);
    if k == |es| {
      assert es[..k] == es;
    } else {
      var init := es[..|es| - 1];
      assert init[..k] == es[..k];
      HistoryGrows(init, k);
      FoldTime(init);
    }
  }

  lemma {:induction false} SnapsEarlier(es: seq<AggEvent>)
    requires TimeOrdered(es) && Snaps(es) != []
    ensures es != [] && Snaps(es)[|Snaps(es)| - 1].latestTime < Fold(es).latestTime
  {
    StatesOrdered(es);
    assert States(es) == Snaps(es) + [Fold(es)];
    assert States(es)[|States(es)| - 2] == Snaps(es)[|Snaps(es)| - 1];
  }

  // Exactly which later events leave the cached hours of a pool as they are, late ones included:
  // those after which every cached hour that was not over when the cache was built still ends with
  // the figures the pool had, and none of which brings a price beyond its hour's.
  lemma {:induction false} CacheStaysExactly(es: seq<AggEvent>, mark: Mark)
    requires TimeOrdered(es) && mark.events <= |es| && Snaps(es[..mark.events]) != []
    ensures var fs := es[..mark.events];
      var t0, cached := FirstHour(Readable(fs)), Hours(Readable(fs), mark.hours);
      && Snaps(es) != [] && FirstHour(Readable(es)) == t0
      && (Hours(Readable(es), mark.hours) == cached <==> HoursHold(Readable(es)[0], Readable(es), Fold(fs), cached, t0))
  {
    hide Fold, Snaps, Closed, HoursHold;
    var fs, S := es[..mark.events], Readable(es);
    PrefixOrdered(es, mark.events);
    SnapsEarlier(fs);
    HistoryGrows(es, mark.events);
    var P, x := Snaps(fs), Fold(fs);
    var Q := S[|P|..];
    assert S[..|P|] == P by { assert Snaps(es)[..|P|] == P; }
    assert S == P + Q;
    ReadableOrdered(es);
    ReadableOrdered(fs);
    GroupBounds(x.latestTime, HOUR);
    FirstHourNotAfter(fs);
    HoursStayExactly(P, x, Q, FirstHour(Readable(fs)), mark.hours);
  }

  lemma {:induction false} FirstHourNotAfter(es: seq<AggEvent>)
    requires TimeOrdered(es) && Snaps(es) != []
    ensures FirstHour(Readable(es)) <= Fold(es).latestTime
  {
    var R := Readable(es);
    ReadableOrdered(es);
    NotEarlierAt(R, 0, |R| - 1);
    GroupBounds(R[0].latestTime, HOUR);
  }

  // A query out of such a cache is answered as out of the hours of the pool as it is.
  lemma {:induction false} CachedAnswer(cache: seq<Candle>, es: seq<AggEvent>, mark: Mark, later: int, startTime: int, n: nat,
          period: int)
    requires TimeOrdered(es) && CachedAt(cache, es, mark) && cache != [] && period > 0
    requires var fs := es[..mark.events];
      HoursHold(Readable(es)[0], Readable(es), Fold(fs), Hours(Readable(fs), mark.hours), FirstHour(Readable(fs)))
    ensures History(Readable(es))
    ensures HourlyAnswer(Readable(es), cache, later, startTime, At(startTime, period, n), n, period)
      == AnswerOf(Readable(es), mark.hours, later, startTime, n, period)
  {
    hide Hours, HoursHold, Kept, FirstHour, HourlyAnswer;
    CacheStaysExactly(es, mark);
    ReadableIsHistory(es);
  }
}
