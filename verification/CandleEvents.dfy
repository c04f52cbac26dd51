// What a candle says about the events of a pool: the end-to-end reading of the fold over raw
// events, the states per event time, and the candles over those states.
module CandleEvents {
  import opened Basics
  import opened TradingHistory
  import opened Candles
  import opened HourlyCandles
  import opened CoarseCandles
  import opened PoolCandles
  import opened CandlePaths

  // ---------------------------------------------------------------------------------------------
  // Sums over raw events

  predicate IsSwap(e: AggEvent) {
    e.isSwap && !e.isFeeChange
  }

  // What swaps moved, regardless of direction.
  function BaseTraded(es: seq<AggEvent>): real {
    if es == [] then 0.0
    else BaseTraded(es[..|es| - 1]) + if IsSwap(es[|es| - 1]) then Abs(es[|es| - 1].baseFlow) else 0.0
  }

  function QuoteTraded(es: seq<AggEvent>): real {
    if es == [] then 0.0
    else QuoteTraded(es[..|es| - 1]) + if IsSwap(es[|es| - 1]) then Abs(es[|es| - 1].quoteFlow) else 0.0
  }

  // What went into the pool, less what came out.
  function NetBase(es: seq<AggEvent>): real {
    if es == [] then 0.0
    else
      var e := es[|es| - 1];
      NetBase(es[..|es| - 1]) + if (e.isSwap || e.isLiq) && !e.isFeeChange then e.baseFlow else 0.0
  }

  function NetQuote(es: seq<AggEvent>): real {
    if es == [] then 0.0
    else
      var e := es[|es| - 1];
      NetQuote(es[..|es| - 1]) + if (e.isSwap || e.isLiq) && !e.isFeeChange then e.quoteFlow else 0.0
  }

  lemma {:induction false} FoldSums(es: seq<AggEvent>)
    ensures Fold(es).baseVolume == BaseTraded(es) && Fold(es).quoteVolume == QuoteTraded(es)
    ensures Fold(es).baseTvl == NetBase(es) && Fold(es).quoteTvl == NetQuote(es)
  {
    hide PriceFromSwapFlow, PriceFromLiqFlow, IsFlowDualStable;
    if es != [] { FoldSums(es[..|es| - 1]); }
  }

  lemma {:induction false} TradedConcat(a: seq<AggEvent>, b: seq<AggEvent>)
    ensures BaseTraded(a + b) == BaseTraded(a) + BaseTraded(b) && QuoteTraded(a + b) == QuoteTraded(a) + QuoteTraded(b)
  {
    if b == [] {
      assert a + b == a;
    } else {
      assert (a + b)[..|a + b| - 1] == a + b[..|b| - 1];
      TradedConcat(a, b[..|b| - 1]);
    }
  }

  lemma {:induction false} NoneBetween(es: seq<AggEvent>, lo: int, hi: int)
    requires TimeOrdered(es) && (es != [] ==> es[|es| - 1].time < lo)
    ensures Between(es, lo, hi) == []
  {
    if es != [] {
      var init := es[..|es| - 1];
      if init != [] { assert init[|init| - 1] == es[|es| - 2]; }
      NoneBetween(init, lo, hi);
    }
  }

  lemma {:induction false} UpToSplits(es: seq<AggEvent>, lo: int, hi: int)
    requires TimeOrdered(es) && lo <= hi
    ensures UpTo(es, hi - 1) == UpTo(es, lo - 1) + Between(es, lo, hi)
  {
    if es != [] {
      var init, e := es[..|es| - 1], es[|es| - 1];
      if e.time < lo {
        UpToAll(es, lo - 1);
        UpToAll(es, hi - 1);
        NoneBetween(es, lo, hi);
      } else {
        UpToSplits(init, lo, hi);
      }
    }
  }

  lemma {:induction false} TradedBetween(es: seq<AggEvent>, lo: int, hi: int)
    requires TimeOrdered(es) && lo <= hi
    ensures BaseTraded(UpTo(es, hi - 1)) - BaseTraded(UpTo(es, lo - 1)) == BaseTraded(Between(es, lo, hi))
    ensures QuoteTraded(UpTo(es, hi - 1)) - QuoteTraded(UpTo(es, lo - 1)) == QuoteTraded(Between(es, lo, hi))
  {
    UpToSplits(es, lo, hi);
    TradedConcat(UpTo(es, lo - 1), Between(es, lo, hi));
  }

  // ---------------------------------------------------------------------------------------------
  // States and event times

  lemma {:induction false} LowestIsLeast(o: AccumPoolStats, W: seq<AccumPoolStats>)
    ensures Lowest(o, W) <= o.lastPriceSwap && forall i :: 0 <= i < |W| ==> Lowest(o, W) <= W[i].lastPriceSwap
    ensures Lowest(o, W) == o.lastPriceSwap || exists i :: 0 <= i < |W| && Lowest(o, W) == W[i].lastPriceSwap
  {
    if W != [] {
      LowestIsLeast(o, W[..|W| - 1]);
      assert W[|W| - 1] in W;
    }
  }

  lemma {:induction false} HighestIsGreatest(o: AccumPoolStats, W: seq<AccumPoolStats>)
    ensures Highest(o, W) >= o.lastPriceSwap && forall i :: 0 <= i < |W| ==> Highest(o, W) >= W[i].lastPriceSwap
    ensures Highest(o, W) == o.lastPriceSwap || exists i :: 0 <= i < |W| && Highest(o, W) == W[i].lastPriceSwap
  {
    if W != [] {
      HighestIsGreatest(o, W[..|W| - 1]);
      assert W[|W| - 1] in W;
    }
  }

  // The times at which something happened, and the pool after each.
  function StateTimes(s: seq<AccumPoolStats>): set<int> {
    if s == [] then {} else StateTimes(s[..|s| - 1]) + {s[|s| - 1].latestTime}
  }

  lemma {:induction false} StateTimesConcat(s: seq<AccumPoolStats>, x: AccumPoolStats)
    ensures StateTimes(s + [x]) == StateTimes(s) + {x.latestTime}
  {
    assert (s + [x])[..|s|] == s;
  }

  lemma {:induction false} TimesAreStateTimes(es: seq<AggEvent>)
    requires TimeOrdered(es)
    ensures Times(es) == StateTimes(States(es))
  {
    hide States, Fold;
    NoStates();
    if es != [] {
      var init := es[..|es| - 1];
      TimesAreStateTimes(init);
      StatesStep(es);
      FoldTime(es);
      var prior := States(init);
      if init != [] && es[|es| - 1].time == init[|init| - 1].time {
        FoldTime(init);
        StatesOrdered(init);
        assert prior == prior[..|prior| - 1] + [Fold(init)];
        StateTimesConcat(prior[..|prior| - 1], Fold(init));
        StateTimesConcat(prior[..|prior| - 1], Fold(es));
      } else {
        StateTimesConcat(prior, Fold(es));
      }
    }
  }

  lemma NoStates()
    ensures States([]) == []
  {
  }

  lemma {:induction false} StateTimesAt(s: seq<AccumPoolStats>, x: int)
    ensures x in StateTimes(s) <==> exists i :: 0 <= i < |s| && s[i].latestTime == x
  {
    if s != [] {
      StateTimesAt(s[..|s| - 1], x);
      var init := s[..|s| - 1];
      if x in StateTimes(init) {
        var i :| 0 <= i < |init| && init[i].latestTime == x;
        assert s[i].latestTime == x;
      }
      if i :| 0 <= i < |s| && s[i].latestTime == x {
        if i < |init| { assert init[i].latestTime == x; }
      }
    }
  }

  lemma {:induction false} TimesBetween(es: seq<AggEvent>, lo: int, hi: int, x: int)
    ensures x in Times(Between(es, lo, hi)) <==> x in Times(es) && lo <= x < hi
  {
    if es != [] {
      var init, e := es[..|es| - 1], es[|es| - 1];
      TimesBetween(init, lo, hi, x);
      if lo <= e.time < hi {
        assert (Between(init, lo, hi) + [e])[..|Between(init, lo, hi)|] == Between(init, lo, hi);
      }
    }
  }

  lemma {:induction false} StateTimesWindow(s: seq<AccumPoolStats>, lo: int, hi: int, x: int)
    ensures x in StateTimes(Window(s, lo, hi)) <==> x in StateTimes(s) && lo <= x < hi
  {
    if s != [] {
      var init, last := s[..|s| - 1], s[|s| - 1];
      StateTimesWindow(init, lo, hi, x);
      if lo <= last.latestTime < hi {
        StateTimesConcat(Window(init, lo, hi), last);
      }
    }
  }

  // The states of an interval are the pool after each event time in it.
  lemma {:induction false} WindowTimes(es: seq<AggEvent>, lo: int, hi: int)
    requires TimeOrdered(es)
    ensures StateTimes(Window(States(es), lo, hi)) == Times(Between(es, lo, hi))
  {
    hide States;
    TimesAreStateTimes(es);
    forall x: int ensures x in StateTimes(Window(States(es), lo, hi)) <==> x in Times(Between(es, lo, hi)) {
      StateTimesWindow(States(es), lo, hi, x);
      TimesBetween(es, lo, hi, x);
    }
  }

  lemma {:induction false} StateIsFold(es: seq<AggEvent>, i: nat)
    requires TimeOrdered(es) && i < |States(es)|
    ensures States(es)[i] == Fold(UpTo(es, States(es)[i].latestTime))
  {
    hide States, Fold;
    var S := States(es);
    StatesOrdered(es);
    if i + 1 < |S| { RisingStep(S, i); }
    AnswerAt(es, S[i].latestTime, i + 1);
  }

  lemma {:induction false} RisingStep(s: seq<AccumPoolStats>, i: nat)
    requires Rising(s) && i + 1 < |s|
    ensures s[i].latestTime < s[i + 1].latestTime
  {
    if i + 2 < |s| { RisingStep(s[..|s| - 1], i); }
  }

  lemma WindowAt(s: seq<AccumPoolStats>, lo: int, hi: int, i: nat) returns (j: nat)
    requires i < |Window(s, lo, hi)|
    ensures j < |s| && s[j] == Window(s, lo, hi)[i]
  {
    var init, last := s[..|s| - 1], s[|s| - 1];
    if i < |Window(init, lo, hi)| {
      j := WindowAt(init, lo, hi, i);
    } else {
      j := |s| - 1;
    }
  }

  lemma {:induction false} WindowIsFold(es: seq<AggEvent>, lo: int, hi: int, i: nat)
    requires TimeOrdered(es) && i < |Window(States(es), lo, hi)|
    ensures var w := Window(States(es), lo, hi)[i]; w == Fold(UpTo(es, w.latestTime))
  {
    hide States, Fold;
    var j := WindowAt(States(es), lo, hi, i);
    StateIsFold(es, j);
  }

  // ---------------------------------------------------------------------------------------------
  // The end-to-end results

  // A candle opens with the pool as of the events before it, and closes with the pool as of the
  // events before its end.
  lemma {:induction false} CandleEnds(es: seq<AggEvent>, open: AccumPoolStats, from: int, to: int)
    requires TimeOrdered(es) && from <= to
    ensures LastBefore(open, States(es), from) == if UpTo(es, from - 1) == [] then open else Fold(UpTo(es, from - 1))
    ensures LastOf(LastBefore(open, States(es), from), Window(States(es), from, to))
      == if UpTo(es, to - 1) == [] then open else Fold(UpTo(es, to - 1))
  {
    hide States, Fold, UpTo;
    StatesOrdered(es);
    RisingIsNotEarlier(States(es));
    Adjoining(open, States(es), from, to, to);
    StateAt(es, from - 1);
    StateAt(es, to - 1);
  }

  lemma {:induction false} CandleValues(es: seq<AggEvent>, open: AccumPoolStats, from: int, to: int, period: int)
    requires TimeOrdered(es) && from <= to && UpTo(es, from - 1) != []
    ensures var c := CandleOver(open, States(es), from, to, period);
      var before, after := Fold(UpTo(es, from - 1)), Fold(UpTo(es, to - 1));
      && c.time == from && c.period == period
      && c.priceOpen == before.lastPriceSwap && c.priceClose == after.lastPriceSwap
      && c.feeRateOpen == before.feeRate && c.feeRateClose == after.feeRate
      && c.tvlBase == NetBase(UpTo(es, to - 1)) && c.tvlQuote == NetQuote(UpTo(es, to - 1))
  {
    hide States, Fold, UpTo, LastBefore, Window;
    CandleEnds(es, open, from, to);
    FoldSums(UpTo(es, to - 1));
    UpToSplits(es, from, to);
  }

  // The volume of a candle is what the swaps in it moved, exactly when something happened before
  // it or the state it opens in had no volume yet (or nothing has happened at all).
  lemma {:induction false} CandleVolume(es: seq<AggEvent>, open: AccumPoolStats, from: int, to: int, period: int)
    requires TimeOrdered(es) && from <= to
    ensures var c, inside := CandleOver(open, States(es), from, to, period), Between(es, from, to);
      && (c.volumeBase == BaseTraded(inside) <==> UpTo(es, from - 1) != [] || open.baseVolume == 0.0 || UpTo(es, to - 1) == [])
      && (c.volumeQuote == QuoteTraded(inside) <==> UpTo(es, from - 1) != [] || open.quoteVolume == 0.0 || UpTo(es, to - 1) == [])
  {
    hide States, Fold, UpTo, LastBefore, Window, Lowest, Highest, Between;
    CandleEnds(es, open, from, to);
    FoldSums(UpTo(es, from - 1));
    FoldSums(UpTo(es, to - 1));
    TradedBetween(es, from, to);
    UpToSplits(es, from, to);
    NothingTraded(UpTo(es, from - 1));
    NothingTraded(UpTo(es, to - 1));
  }

  lemma {:induction false} NothingTraded(es: seq<AggEvent>)
    ensures es == [] ==> BaseTraded(es) == 0.0 && QuoteTraded(es) == 0.0
  {
  }

  // The low and the high of a candle are the extremes of its opening price and the pool's price
  // after each event time in it.
  lemma {:induction false} CandleExtremes(es: seq<AggEvent>, open: AccumPoolStats, from: int, to: int, period: int)
    requires TimeOrdered(es)
    ensures var c, times := CandleOver(open, States(es), from, to, period), Times(Between(es, from, to));
      && c.minPrice <= c.priceOpen <= c.maxPrice
      && (forall t :: t in times ==> c.minPrice <= Fold(UpTo(es, t)).lastPriceSwap <= c.maxPrice)
      && (c.minPrice == c.priceOpen || exists t :: t in times && c.minPrice == Fold(UpTo(es, t)).lastPriceSwap)
      && (c.maxPrice == c.priceOpen || exists t :: t in times && c.maxPrice == Fold(UpTo(es, t)).lastPriceSwap)
  {
    hide States, Fold, UpTo, LastBefore, Window, Lowest, Highest, Between, Times;
    var c, times := CandleOver(open, States(es), from, to, period), Times(Between(es, from, to));
    var o, W := LastBefore(open, States(es), from), Window(States(es), from, to);
    WindowTimes(es, from, to);
    LowestIsLeast(o, W);
    HighestIsGreatest(o, W);
    forall i | 0 <= i < |W| ensures W[i].latestTime in times && W[i] == Fold(UpTo(es, W[i].latestTime)) {
      StateTimesAt(W, W[i].latestTime);
      WindowIsFold(es, from, to, i);
    }
    forall t | t in times ensures c.minPrice <= Fold(UpTo(es, t)).lastPriceSwap <= c.maxPrice {
      StateTimesAt(W, t);
    }
  }

  // ---------------------------------------------------------------------------------------------
  // The candles of an answer

  // A candle says what happened in [from, to): the prices and fees the pool had before and after
  // it, what was traded in it, what the pool held after it, and between which prices it moved.
  ghost predicate Tells(es: seq<AggEvent>, c: Candle, from: int, to: int) {
    var before, after, inside := UpTo(es, from - 1), UpTo(es, to - 1), Between(es, from, to);
    && PriceAfter(before, c.priceOpen) && PriceAfter(after, c.priceClose)
    && FeeAfter(before, c.feeRateOpen) && FeeAfter(after, c.feeRateClose)
    && c.volumeBase == BaseTraded(inside) && c.volumeQuote == QuoteTraded(inside)
    && c.tvlBase == NetBase(after) && c.tvlQuote == NetQuote(after)
    && c.minPrice <= c.priceOpen <= c.maxPrice
    && (forall t, price :: t in Times(inside) && PriceAfter(UpTo(es, t), price) ==> c.minPrice <= price <= c.maxPrice)
    && (c.minPrice == c.priceOpen || exists t :: t in Times(inside) && PriceAfter(UpTo(es, t), c.minPrice))
    && (c.maxPrice == c.priceOpen || exists t :: t in Times(inside) && PriceAfter(UpTo(es, t), c.maxPrice))
  }

  lemma {:induction false} CandleTells(es: seq<AggEvent>, open: AccumPoolStats, from: int, to: int, period: int, time: int)
    requires TimeOrdered(es) && from <= to && UpTo(es, from - 1) != []
    ensures Tells(es, CandleOver(open, Readable(es), from, to, period).(time := time), from, to)
  {
    hide States, Readable, Fold, UpTo, LastBefore, Window, Lowest, Highest, Between, Times, BaseTraded, QuoteTraded, NetBase,
      NetQuote, PriceAfter, FeeAfter;
    ReadableOrdered(es);
    if es == [] { NothingUpTo(from - 1); }
    CandleValues(es, open, from, to, period);
    CandleVolume(es, open, from, to, period);
    CandleExtremes(es, open, from, to, period);
    forall run, price ensures PriceAfter(run, price) <==> Fold(run).lastPriceSwap == price { PriceIsFolded(run, price); }
    FeeIsFolded(UpTo(es, from - 1), Fold(UpTo(es, from - 1)).feeRate);
    FeeIsFolded(UpTo(es, to - 1), Fold(UpTo(es, to - 1)).feeRate);
  }

  lemma {:induction false} NothingUpTo(t: int)
    ensures UpTo([], t) == []
  {
  }

  lemma StillBefore(es: seq<AggEvent>, lo: int, hi: int)
    requires TimeOrdered(es) && lo <= hi && UpTo(es, lo - 1) != []
    ensures UpTo(es, hi - 1) != []
  {
    UpToSplits(es, lo, hi);
  }

  // Every candle the direct path returns, if something happened before its window, tells what
  // happened in its period.
  lemma {:induction false} DirectCandlesTell(es: seq<AggEvent>, startTime: int, endTime: int, period: int, k: nat, i: nat)
    requires TimeOrdered(es) && period > 0 && UpTo(es, startTime - 1) != []
    requires i < |Kept(Closed(OpenOf(Readable(es), startTime, endTime), Readable(es), startTime, period, k))|
    ensures var all := Closed(OpenOf(Readable(es), startTime, endTime), Readable(es), startTime, period, k);
      var c := Kept(all)[i];
      c.time == At(startTime, period, Dropped(all) + i) && c.period == period && Tells(es, c, c.time, c.time + period)
  {
    hide Readable, OpenOf, Closed, Dropped, Tells, CandleOver, UpTo;
    var R, open := Readable(es), OpenOf(Readable(es), startTime, endTime);
    var j := Dropped(Closed(open, R, startTime, period, k)) + i;
    var from := At(startTime, period, j);
    ClosedAt(open, R, startTime, period, k, j);
    CandlePeriod(open, R, from, from + period, period);
    AtNotBefore(startTime, period, j);
    StillBefore(es, startTime, from);
    CandleTells(es, open, from, from + period, period, from);
  }

  // The pool holds a hundred thousand of one of its tokens after these events.
  predicate HoldsMuch(es: seq<AggEvent>) {
    NetBase(es) >= 100000.0 || NetQuote(es) >= 100000.0
  }

  predicate HeldMuchBy(es: seq<AggEvent>, begin: int, period: int, k: nat) {
    HoldsMuch(UpTo(es, At(begin, period, k) + period - 1)) || (k > 0 && HeldMuchBy(es, begin, period, k - 1))
  }

  // Which periods the direct path lists: of all but the last, those by the end of which the pool has
  // held as much at the end of some period of the window.
  lemma {:induction false} DirectListsExactly(es: seq<AggEvent>, begin: int, period: int, n: nat, k: nat)
    requires TimeOrdered(es) && period > 0 && begin % period == 0 && UpTo(es, begin - 1) != [] && k + 1 < n
    ensures var R, end := Readable(es), At(begin, period, n);
      var candles := Kept(Closed(OpenOf(R, begin, end), R, begin, period, EndingBefore(begin, period, end)));
      HeldMuchBy(es, begin, period, k) <==> exists i :: 0 <= i < |candles| && candles[i].time == At(begin, period, k)
  {
    hide Readable, OpenOf, Closed, Kept, Dropped, At, EndingBefore, HoldsMuch, UpTo, EveryPeriod, HeldMuchBy;
    var R, end := Readable(es), At(begin, period, n);
    AllButTheLast(begin, period, n);
    var open := OpenOf(R, begin, end);
    var all := Closed(open, R, begin, period, n - 1);
    var candles, d := Kept(all), n - 1 - |Kept(all)|;
    KeptFromFirstLiquid(all);
    MuchFrom(es, open, begin, period, n - 1, d, k);
    forall i | 0 <= i < |candles| ensures candles[i].time == At(begin, period, d + i) {
      ClosedAt(open, R, begin, period, n - 1, d + i);
      CandleTime(open, R, At(begin, period, d + i), At(begin, period, d + i) + period, period);
    }
    if d <= k { assert candles[k - d].time == At(begin, period, k); }
    if i :| 0 <= i < |candles| && candles[i].time == At(begin, period, k) {
      if k < d + i { AtRises(begin, period, k, d + i); }
      if d + i < k { AtRises(begin, period, d + i, k); }
    }
  }

  lemma {:induction false} MuchFrom(es: seq<AggEvent>, open: AccumPoolStats, begin: int, period: int, m: nat, d: nat, k: nat)
    requires TimeOrdered(es) && period > 0 && UpTo(es, begin - 1) != [] && k < m && d <= m
    requires var all := Closed(open, Readable(es), begin, period, m);
      && (forall i :: 0 <= i < d ==> all[i].tvlBase < 100000.0 && all[i].tvlQuote < 100000.0)
      && (d < m ==> all[d].tvlBase >= 100000.0 || all[d].tvlQuote >= 100000.0)
    ensures HeldMuchBy(es, begin, period, k) <==> d <= k
    decreases k
  {
    hide Readable, Closed, At, UpTo;
    PeriodTvl(es, open, begin, period, m, k);
    if k > 0 { MuchFrom(es, open, begin, period, m, d, k - 1); }
  }

  lemma {:induction false} PeriodTvl(es: seq<AggEvent>, open: AccumPoolStats, begin: int, period: int, m: nat, k: nat)
    requires TimeOrdered(es) && period > 0 && UpTo(es, begin - 1) != [] && k < m
    ensures var c, run := Closed(open, Readable(es), begin, period, m)[k], UpTo(es, At(begin, period, k) + period - 1);
      c.tvlBase == NetBase(run) && c.tvlQuote == NetQuote(run)
  {
    hide Readable, States, Closed, At, UpTo, NetBase, NetQuote, CandleOver;
    var from := At(begin, period, k);
    ReadableOrdered(es);
    if es == [] { NothingUpTo(begin - 1); }
    ClosedAt(open, Readable(es), begin, period, m, k);
    AtNotBefore(begin, period, k);
    StillBefore(es, begin, from);
    CandleValues(es, open, from, from + period, period);
  }

  lemma CandlePeriod(open: AccumPoolStats, s: seq<AccumPoolStats>, from: int, to: int, period: int)
    ensures var c := CandleOver(open, s, from, to, period); c.time == from && c.period == period && c.(time := from) == c
  {
  }

  lemma {:induction false} CoarseCandlesTell(es: seq<AggEvent>, open: AccumPoolStats, first: int, to: int, period: int,
          i: nat)
    requires TimeOrdered(es) && period > 0 && UpTo(es, first - 1) != []
    requires i < |Coarse(open, Readable(es), first, to, period)|
    ensures var c := Coarse(open, Readable(es), first, to, period)[i];
      && c.time == At(GroupStart(first, period), period, i) && c.period == period
      && Tells(es, c, MaxOf(c.time, first), MinOf(c.time + period, to))
  {
    hide Readable, Coarse, Tells, CandleOver, UpTo, GroupStart;
    var R, T := Readable(es), At(GroupStart(first, period), period, i);
    CoarseSize(open, R, first, to, period);
    CoarseAt(open, R, first, to, period, i);
    GroupBounds(first, period);
    AtNotBefore(GroupStart(first, period), period, i);
    var a, b := MaxOf(T, first), MinOf(T + period, to);
    assert first <= a <= b;
    StillBefore(es, first, a);
    CandlePeriod(open, R, a, b, period);
    CandleTells(es, open, a, b, period, T);
  }

  // Every candle the hourly path combines tells what happened in its period, cut to the hours that
  // are kept and taken.
  lemma {:induction false} HourlyCandlesTell(es: seq<AggEvent>, m: nat, startTime: int, n: nat, hours: int, i: nat)
    requires TimeOrdered(es) && Snaps(es) != [] && hours > 0 && n > 0
    requires startTime == GroupStart(startTime, hours * HOUR) > 0 && UpTo(es, startTime - 1) != []
    ensures var R, period := Readable(es), hours * HOUR;
      var first, cs := MaxOf(FirstKept(R, m), startTime), HourlyList(R, m, startTime, n, period);
      i < |cs| ==>
        && cs[i].time == At(GroupStart(first, period), period, i) && cs[i].period == period
        && Tells(es, cs[i], MaxOf(cs[i].time, first), MinOf(cs[i].time + period, TakenOf(R, m, startTime, n, period)))
  {
    hide Readable, HourlyList, Coarse, Tells, UpTo, TakenOf, GroupStart, FirstKept, Snaps, At, MinOf, TimeOrdered, History;
    ReadableIsHistory(es);
    HistoryIs(es);
    var R, period := Readable(es), hours * HOUR;
    var first := MaxOf(FirstKept(R, m), startTime);
    HourlyIsCoarse(R, m, startTime, n, hours);
    StillBefore(es, startTime, first);
    if i < |HourlyList(R, m, startTime, n, period)| {
      CoarseCandlesTell(es, R[0], first, TakenOf(R, m, startTime, n, period), period, i);
    }
  }

  lemma HistoryIs(es: seq<AggEvent>)
    ensures Readable(es) != []
  {
  }
}
