// Candles built from a pool's states by CandleBuilder (model/candle.go), and what a candle of a
// time interval is, stated on the states alone.
module Candles {
  import opened TradingHistory

  const MIN_VALID_LIQUIDITY: real := 100000.0

  datatype Candle = Candle(
    priceOpen: real,
    priceClose: real,
    minPrice: real,
    maxPrice: real,
    volumeBase: real,
    volumeQuote: real,
    tvlBase: real,
    tvlQuote: real,
    feeRateOpen: real,
    feeRateClose: real,
    period: int,
    time: int)

  datatype RunningCandle = RunningCandle(
    candle: Candle,
    lastAccum: AccumPoolStats,
    openCumBaseVol: real,
    openCumQuoteVol: real)

  // ---------------------------------------------------------------------------------------------
  // The specification

  // The state a pool is in after `inside`, having started from `open`.
  function LastOf(open: AccumPoolStats, inside: seq<AccumPoolStats>): AccumPoolStats {
    if inside == [] then open else inside[|inside| - 1]
  }

  function Lowest(open: AccumPoolStats, inside: seq<AccumPoolStats>): real
  {
    if inside == [] then open.lastPriceSwap
    else
      var low, last := Lowest(open, inside[..|inside| - 1]), inside[|inside| - 1].lastPriceSwap;
      if last < low then last else low
  }

  function Highest(open: AccumPoolStats, inside: seq<AccumPoolStats>): real
  {
    if inside == [] then open.lastPriceSwap
    else
      var high, last := Highest(open, inside[..|inside| - 1]), inside[|inside| - 1].lastPriceSwap;
      if last > high then last else high
  }

  // The candle of an interval that opens in one state and sees the states `inside`.
  function CandleOf(open: AccumPoolStats, inside: seq<AccumPoolStats>, time: int, period: int): Candle {
    var close := LastOf(open, inside);
    Candle(open.lastPriceSwap, close.lastPriceSwap, Lowest(open, inside), Highest(open, inside),
           close.baseVolume - open.baseVolume, close.quoteVolume - open.quoteVolume,
           close.baseTvl, close.quoteTvl, open.feeRate, close.feeRate, period, time)
  }

  // The last state before t, or `open` when there is none.
  function LastBefore(open: AccumPoolStats, s: seq<AccumPoolStats>, t: int): AccumPoolStats {
    LastOf(open, s[..Before(s, t)])
  }

  // The candle of [from, to).
  function CandleOver(open: AccumPoolStats, s: seq<AccumPoolStats>, from: int, to: int, period: int): Candle {
    CandleOf(LastBefore(open, s, from), Window(s, from, to), from, period)
  }

  // The start of candle k.
  function At(start: int, period: int, k: nat): int {
    if k == 0 then start else At(start, period, k - 1) + period
  }

  lemma {:induction false} AtIs(start: int, period: int, k: nat)
    ensures At(start, period, k) == start + k * period
  {
    if k > 0 { AtIs(start, period, k - 1); }
  }

  // The first k candles.
  function Closed(open: AccumPoolStats, s: seq<AccumPoolStats>, start: int, period: int, k: nat): (cs: seq<Candle>)
    ensures |cs| == k
  {
    if k == 0 then []
    else
      var from := At(start, period, k - 1);
      Closed(open, s, start, period, k - 1) + [CandleOver(open, s, from, from + period, period)]
  }

  predicate IsLiquid(c: Candle) {
    c.tvlBase >= MIN_VALID_LIQUIDITY || c.tvlQuote >= MIN_VALID_LIQUIDITY
  }

  // How many candles come before the first liquid one.
  function Dropped(cs: seq<Candle>): (d: nat)
    ensures d <= |cs|
  {
    if cs == [] then 0
    else
      var d := Dropped(cs[..|cs| - 1]);
      if d < |cs| - 1 || IsLiquid(cs[|cs| - 1]) then d else |cs|
  }

  // Everything from the first liquid candle on.
  function Kept(cs: seq<Candle>): seq<Candle> {
    cs[Dropped(cs)..]
  }

  lemma DroppedAppend(cs: seq<Candle>, c: Candle, next: seq<Candle>)
    requires next == cs + [c]
    ensures Dropped(next) == if Dropped(cs) < |cs| || IsLiquid(c) then Dropped(cs) else |next|
  {
    hide IsLiquid;
    assert next[..|cs|] == cs;
  }

  lemma KeptAppend(cs: seq<Candle>, c: Candle, next: seq<Candle>)
    requires next == cs + [c]
    ensures Kept(next) == if Dropped(cs) < |cs| || IsLiquid(c) then Kept(cs) + [c] else []
    ensures Dropped(next) < |next| <==> Dropped(cs) < |cs| || IsLiquid(c)
    ensures Dropped(cs) == |cs| ==> Kept(cs) == []
  {
    hide IsLiquid, Dropped;
    DroppedAppend(cs, c, next);
    var d := Dropped(cs);
    assert next[d..] == cs[d..] + [c];
  }

  // What is left out comes first and holds less than 100000 of either token; what is kept begins
  // with a candle that holds as much of one of them.
  lemma {:induction false} KeptFromFirstLiquid(cs: seq<Candle>)
    ensures |Kept(cs)| <= |cs| && Kept(cs) == cs[|cs| - |Kept(cs)|..]
    ensures forall i :: 0 <= i < |cs| - |Kept(cs)| ==> cs[i].tvlBase < 100000.0 && cs[i].tvlQuote < 100000.0
    ensures Kept(cs) != [] ==> Kept(cs)[0].tvlBase >= 100000.0 || Kept(cs)[0].tvlQuote >= 100000.0
  {
    if cs != [] {
      var init, last := cs[..|cs| - 1], cs[|cs| - 1];
      KeptFromFirstLiquid(init);
      hide Dropped, Kept, IsLiquid;
      assert cs == init + [last];
      KeptAppend(init, last, cs);
      LiquidIs(last);
      DroppedIs(init);
    }
  }

  lemma LiquidIs(c: Candle)
    ensures IsLiquid(c) <==> c.tvlBase >= 100000.0 || c.tvlQuote >= 100000.0
  {
  }

  lemma {:induction false} DroppedIs(cs: seq<Candle>)
    ensures |Kept(cs)| == |cs| - Dropped(cs)
  {
  }

  // ---------------------------------------------------------------------------------------------
  // Windows

  predicate AllEarlierThan(s: seq<AccumPoolStats>, t: int) {
    s == [] || (s[|s| - 1].latestTime < t && AllEarlierThan(s[..|s| - 1], t))
  }

  lemma {:induction false} AllEarlierBefore(s: seq<AccumPoolStats>, t: int)
    requires AllEarlierThan(s, t)
    ensures Before(s, t) == |s| && forall i :: 0 <= i < |s| ==> s[i].latestTime < t
  {
    if s != [] { AllEarlierBefore(s[..|s| - 1], t); }
    BeforeIs(s, t, |s|);
  }

  lemma {:induction false} AllEarlierLater(s: seq<AccumPoolStats>, t: int, u: int)
    requires AllEarlierThan(s, t) && t <= u
    ensures AllEarlierThan(s, u)
  {
    if s != [] { AllEarlierLater(s[..|s| - 1], t, u); }
  }

  lemma BeforeAppend(s: seq<AccumPoolStats>, x: AccumPoolStats, t: int)
    requires x.latestTime >= t
    ensures Before(s + [x], t) == Before(s, t)
  {
    BeforeSplits(s, t);
    BeforeIs(s + [x], t, Before(s, t));
  }

  lemma {:induction false} WindowAppend(s: seq<AccumPoolStats>, x: AccumPoolStats, from: int, to: int)
    ensures Window(s + [x], from, to) ==
      if from <= x.latestTime < to then Window(s, from, to) + [x] else Window(s, from, to)
  {
    assert (s + [x])[..|s|] == s;
  }

  // A state at or after an interval does not change its candle.
  lemma CandleStable(open: AccumPoolStats, s: seq<AccumPoolStats>, x: AccumPoolStats, from: int,
          to: int, period: int)
    requires from <= to <= x.latestTime
    ensures CandleOver(open, s + [x], from, to, period) == CandleOver(open, s, from, to, period)
  {
    BeforeAppend(s, x, from);
    WindowAppend(s, x, from, to);
    assert (s + [x])[..Before(s, from)] == s[..Before(s, from)];
  }

  lemma {:induction false} ClosedStable(open: AccumPoolStats, s: seq<AccumPoolStats>, x: AccumPoolStats,
                                        start: int, period: int, k: nat)
    requires period > 0 && At(start, period, k) <= x.latestTime
    ensures Closed(open, s + [x], start, period, k) == Closed(open, s, start, period, k)
  {
    if k > 0 {
      ClosedStable(open, s, x, start, period, k - 1);
      var from := At(start, period, k - 1);
      CandleStable(open, s, x, from, from + period, period);
    }
  }

  // A state inside an interval moves only its close, its extremes and its cumulative fields.
  lemma CandleGrows(open: AccumPoolStats, s: seq<AccumPoolStats>, x: AccumPoolStats, from: int,
          to: int, period: int)
    requires from <= x.latestTime < to
    ensures var c, d := CandleOver(open, s, from, to, period), CandleOver(open, s + [x], from, to, period);
      var was := LastBefore(open, s, from);
      && LastBefore(open, s + [x], from) == was
      && d == c.(priceClose := x.lastPriceSwap,
                 minPrice := if x.lastPriceSwap < c.minPrice then x.lastPriceSwap else c.minPrice,
                 maxPrice := if x.lastPriceSwap > c.maxPrice then x.lastPriceSwap else c.maxPrice,
                 volumeBase := x.baseVolume - was.baseVolume,
                 volumeQuote := x.quoteVolume - was.quoteVolume,
                 tvlBase := x.baseTvl, tvlQuote := x.quoteTvl, feeRateClose := x.feeRate)
  {
    BeforeAppend(s, x, from);
    WindowAppend(s, x, from, to);
    var w := Window(s, from, to);
    assert (s + [x])[..Before(s, from)] == s[..Before(s, from)];
    assert (w + [x])[..|w|] == w;
  }

  // An interval after every state opens and closes in the last one.
  lemma {:induction false} CandleAfter(open: AccumPoolStats, s: seq<AccumPoolStats>, from: int, to: int, period: int)
    requires AllEarlierThan(s, from)
    ensures CandleOver(open, s, from, to, period) == CandleOf(LastOf(open, s), [], from, period)
    ensures LastBefore(open, s, from) == LastOf(open, s)
  {
    AllEarlierBefore(s, from);
    assert s[..|s|] == s;
    WindowEmpty(s, from, to);
  }

  // ---------------------------------------------------------------------------------------------
  // The builder

  datatype Build = Build(series: seq<Candle>, running: RunningCandle, atValidHist: bool)

  // What a builder holds that has been fed s and has closed k candles.
  function Building(open: AccumPoolStats, s: seq<AccumPoolStats>, start: int, period: int, k: nat): Build {
    var from := At(start, period, k);
    var was, cs := LastBefore(open, s, from), Closed(open, s, start, period, k);
    Build(Kept(cs),
          RunningCandle(CandleOver(open, s, from, from + period, period), LastOf(open, s), was.baseVolume, was.quoteVolume),
          Dropped(cs) < k)
  }

  function Opened(accum: AccumPoolStats, startTime: int, period: int): RunningCandle {
    RunningCandle(CandleOf(accum, [], startTime, period), accum, accum.baseVolume, accum.quoteVolume)
  }

  lemma {:induction false} BuildingSeries(open: AccumPoolStats, s: seq<AccumPoolStats>, start: int, period: int, k: nat)
    ensures Building(open, s, start, period, k).series == Kept(Closed(open, s, start, period, k))
  {
  }

  lemma OpeningBuilds(open: AccumPoolStats, start: int, period: int)
    ensures Building(open, [], start, period, 0) == Build([], Opened(open, start, period), false)
  {
    CandleAfter(open, [], start, start + period, period);
  }

  lemma ClosingKeeps(open: AccumPoolStats, s: seq<AccumPoolStats>, start: int, period: int, k: nat)
    ensures var from := At(start, period, k);
      var cs, next := Closed(open, s, start, period, k), Closed(open, s, start, period, k + 1);
      var c := CandleOver(open, s, from, from + period, period);
      && (Dropped(next) < k + 1 <==> Dropped(cs) < k || IsLiquid(c))
      && Kept(next) == if Dropped(next) < k + 1 then Kept(cs) + [c] else Kept(cs)
  {
    hide Kept, Dropped, CandleOver, IsLiquid;
    var from := At(start, period, k);
    var cs, next := Closed(open, s, start, period, k), Closed(open, s, start, period, k + 1);
    var c := CandleOver(open, s, from, from + period, period);
    assert next == cs + [c];
    KeptAppend(cs, c, next);
  }

  lemma {:induction false} ClosingOpens(open: AccumPoolStats, s: seq<AccumPoolStats>, start: int, period: int, k: nat)
    requires AllEarlierThan(s, At(start, period, k) + period)
    ensures var to := At(start, period, k) + period;
      Building(open, s, start, period, k + 1).running == Opened(LastOf(open, s), to, period)
  {
    var from := At(start, period, k);
    CandleAfter(open, s, from + period, from + period + period, period);
  }

  lemma ClosingBuilds(open: AccumPoolStats, s: seq<AccumPoolStats>, start: int, period: int,
          k: nat, b: Build, next: Build)
    requires AllEarlierThan(s, At(start, period, k) + period)
    requires b == Building(open, s, start, period, k)
    requires next.running == Opened(b.running.lastAccum, b.running.candle.time + period, period)
    requires next.atValidHist == (b.atValidHist || IsLiquid(b.running.candle))
    requires next.series == if next.atValidHist then b.series + [b.running.candle] else b.series
    ensures next == Building(open, s, start, period, k + 1)
  {
    hide Kept, Closed, Window, Before, LastOf, Lowest, Highest, IsLiquid, AllEarlierThan;
    ClosingKeeps(open, s, start, period, k);
    ClosingOpens(open, s, start, period, k);
  }

  function Fed(r: RunningCandle, x: AccumPoolStats): RunningCandle {
    var c := r.candle;
    r.(lastAccum := x, candle := c.(
      priceClose := x.lastPriceSwap,
      minPrice := if x.lastPriceSwap < c.minPrice then x.lastPriceSwap else c.minPrice,
      maxPrice := if x.lastPriceSwap > c.maxPrice then x.lastPriceSwap else c.maxPrice,
      volumeBase := x.baseVolume - r.openCumBaseVol,
      volumeQuote := x.quoteVolume - r.openCumQuoteVol,
      tvlBase := x.baseTvl, tvlQuote := x.quoteTvl, feeRateClose := x.feeRate))
  }

  lemma LastOfAppend(open: AccumPoolStats, s: seq<AccumPoolStats>, x: AccumPoolStats)
    ensures LastOf(open, s + [x]) == x
  {
  }

  lemma {:induction false} FeedingBuilds(open: AccumPoolStats, s: seq<AccumPoolStats>, x: AccumPoolStats, start: int,
          period: int, k: nat)
    requires period > 0 && At(start, period, k) <= x.latestTime < At(start, period, k) + period
    ensures var b, next := Building(open, s, start, period, k), Building(open, s + [x], start, period, k);
      next == b.(running := Fed(b.running, x))
  {
    hide Closed, Kept, Window, CandleOf, Before, LastOf;
    var from := At(start, period, k);
    ClosedStable(open, s, x, start, period, k);
    assert LastOf(open, s + [x]) == x by { LastOfAppend(open, s, x); }
    CandleGrows(open, s, x, from, from + period, period);
  }

  lemma {:induction false} FedEarlier(s: seq<AccumPoolStats>, x: AccumPoolStats, t: int)
    requires AllEarlierThan(s, t) && x.latestTime < t
    ensures AllEarlierThan(s + [x], t)
  {
    assert (s + [x])[..|s|] == s;
  }

  class CandleBuilder {
    var series: seq<Candle>
    var running: RunningCandle
    var period: int
    var atValidHist: bool
    ghost var open: AccumPoolStats         // the state the builder opened in
    ghost var start: int
    ghost var fed: seq<AccumPoolStats>     // the states it was given
    ghost var closed: nat                  // the candles it has closed

    ghost predicate Valid()
      reads this
    {
      && period > 0
      && Build(series, running, atValidHist) == Building(open, fed, start, period, closed)
      && running.candle.time == At(start, period, closed)
      && AllEarlierThan(fed, At(start, period, closed) + period)
    }

    constructor (startTime: int, period: int, open: AccumPoolStats)
      requires period > 0
      ensures Valid()
      ensures this.open == open && start == startTime && this.period == period && fed == [] && closed == 0
    {
      series, this.period, atValidHist := [], period, false;
      this.open, start, fed, closed := open, startTime, [], 0;
      new;
      OpenCandle(open, startTime);
      OpeningBuilds(open, startTime, period);
    }

    method OpenCandle(accum: AccumPoolStats, startTime: int)
      modifies this`running
      ensures running == Opened(accum, startTime, period) && running.candle.time == startTime
    {
      running := RunningCandle(
        Candle(accum.lastPriceSwap, accum.lastPriceSwap, accum.lastPriceSwap, accum.lastPriceSwap, 0.0, 0.0,
               accum.baseTvl, accum.quoteTvl, accum.feeRate, accum.feeRate, period, startTime),
        accum, accum.baseVolume, accum.quoteVolume);
    }

    method CloseCandle()
      requires Valid()
      modifies this`series, this`running, this`atValidHist, this`closed
      ensures Valid() && closed == old(closed) + 1
    {
      hide Building, Opened;
      ghost var b := Build(series, running, atValidHist);
      AllEarlierLater(fed, At(start, period, closed) + period, At(start, period, closed) + period + period);
      atValidHist := atValidHist || running.candle.tvlBase >= MIN_VALID_LIQUIDITY || running.candle.tvlQuote >= MIN_VALID_LIQUIDITY;
      if atValidHist {
        series := series + [running.candle];
      }
      OpenCandle(running.lastAccum, running.candle.time + period);
      ClosingBuilds(open, fed, start, period, closed, b, Build(series, running, atValidHist));
      closed := closed + 1;
    }

    // Closes every candle that ends at or before the state's time, and puts the state in the next.
    method Increment(accum: AccumPoolStats)
      requires Valid() && At(start, period, closed) <= accum.latestTime
      modifies this`series, this`running, this`atValidHist, this`closed, this`fed
      ensures Valid() && fed == old(fed) + [accum]
      ensures closed >= old(closed) && At(start, period, closed) <= accum.latestTime < At(start, period, closed) + period
    {
      hide Building, Fed;
      while accum.latestTime >= running.candle.time + period
        invariant Valid() && fed == old(fed) && closed >= old(closed) && At(start, period, closed) <= accum.latestTime
        decreases accum.latestTime - At(start, period, closed)
      {
        CloseCandle();
      }
      FeedingBuilds(open, fed, accum, start, period, closed);
      FedEarlier(fed, accum, At(start, period, closed) + period);
      PutIn(accum);
      fed := fed + [accum];
    }

    // The part of Increment after its loop: the running candle takes the state in.
    method PutIn(accum: AccumPoolStats)
      modifies this`running
      ensures running == Fed(old(running), accum) && running.candle.time == old(running.candle.time)
    {
      running := running.(candle := running.candle.(priceClose := accum.lastPriceSwap));
      if accum.lastPriceSwap < running.candle.minPrice {
        running := running.(candle := running.candle.(minPrice := accum.lastPriceSwap));
      }
      if accum.lastPriceSwap > running.candle.maxPrice {
        running := running.(candle := running.candle.(maxPrice := accum.lastPriceSwap));
      }
      running := running.(candle := running.candle.(
        volumeBase := accum.baseVolume - running.openCumBaseVol,
        volumeQuote := accum.quoteVolume - running.openCumQuoteVol));
      running := running.(candle := running.candle.(tvlBase := accum.baseTvl, tvlQuote := accum.quoteTvl));
      running := running.(candle := running.candle.(feeRateClose := accum.feeRate), lastAccum := accum);
    }

    // Closes every candle that ends before endTime: one that ends exactly there stays open.
    method Close(endTime: int) returns (candles: seq<Candle>)
      requires Valid()
      modifies this`series, this`running, this`atValidHist, this`closed
      ensures Valid() && candles == Kept(Closed(open, fed, start, period, closed))
      ensures closed >= old(closed) && endTime <= At(start, period, closed) + period
      ensures closed == old(closed) || At(start, period, closed) < endTime
    {
      hide Building;
      while running.candle.time + period < endTime
        invariant Valid() && closed >= old(closed)
        invariant closed == old(closed) || At(start, period, closed) < endTime
        decreases endTime - At(start, period, closed)
      {
        CloseCandle();
      }
      BuildingSeries(open, fed, start, period, closed);
      return series;
    }
  }
}
