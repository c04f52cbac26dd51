// A pool's trading history: aggregate events folded into a running counter, one snapshot per
// event time (model/tradingHistory.go), and the two ways the cache reads it back
// (cache/transactors.go).
module TradingHistory {
  import opened Basics

  // An aggregate event. `concPrice` is the price its flows imply for a concentrated position
  // between its two ticks, which is used when the event is tick-skewed.
  datatype AggEvent = AggEvent(
    time: int,
    isFeeChange: bool,
    isSwap: bool,
    isLiq: bool,
    isTickSkewed: bool,
    flowsAtMarket: bool,
    inBaseQty: bool,
    baseFlow: real,
    quoteFlow: real,
    feeRate: int,
    concPrice: real)

  datatype AccumPoolStats = AccumPoolStats(
    latestTime: int,
    baseTvl: real,
    quoteTvl: real,
    baseVolume: real,
    quoteVolume: real,
    baseFees: real,
    quoteFees: real,
    lastPriceSwap: real,
    lastPriceLiq: real,
    lastPriceIndic: real,
    feeRate: real)

  const ZERO_STATS := AccumPoolStats(0, 0.0, 0.0, 0.0, 0.0, 0.0, 0.0, 0.0, 0.0, 0.0, 0.0)
  const MIN_NUMERIC_STABLE_FLOW: real := 1000.0
  const FEE_RATE_MULTIPLIER: real := 1000000.0

  predicate IsFlowDualStable(baseFlow: real, quoteFlow: real) {
    Abs(baseFlow) >= MIN_NUMERIC_STABLE_FLOW && Abs(quoteFlow) >= MIN_NUMERIC_STABLE_FLOW
  }

  function PriceFromSwapFlow(e: AggEvent, feeRate: real): real
    requires IsFlowDualStable(e.baseFlow, e.quoteFlow)
  {
    Abs(e.baseFlow) / Abs(e.quoteFlow) * (if e.baseFlow < 0.0 then 1.0 + feeRate else 1.0 - feeRate)
  }

  function PriceFromLiqFlow(e: AggEvent): real
    requires IsFlowDualStable(e.baseFlow, e.quoteFlow)
  {
    if e.isTickSkewed then e.concPrice else Abs(e.baseFlow / e.quoteFlow)
  }

  function WithFlows(a: AccumPoolStats, e: AggEvent): AccumPoolStats {
    a.(baseTvl := a.baseTvl + e.baseFlow, quoteTvl := a.quoteTvl + e.quoteFlow)
  }

  function WithSwap(a: AccumPoolStats, e: AggEvent): AccumPoolStats {
    var b := WithFlows(a, e).(
      baseVolume := a.baseVolume + Abs(e.baseFlow),
      quoteVolume := a.quoteVolume + Abs(e.quoteFlow),
      baseFees := a.baseFees + (if e.inBaseQty then 0.0 else Abs(e.baseFlow) * a.feeRate),
      quoteFees := a.quoteFees + (if e.inBaseQty then Abs(e.quoteFlow) * a.feeRate else 0.0));
    if IsFlowDualStable(e.baseFlow, e.quoteFlow) then
      b.(lastPriceSwap := PriceFromSwapFlow(e, a.feeRate), lastPriceIndic := PriceFromSwapFlow(e, a.feeRate))
    else b
  }

  function WithLiq(a: AccumPoolStats, e: AggEvent): AccumPoolStats {
    var b := WithFlows(a, e);
    if IsFlowDualStable(e.baseFlow, e.quoteFlow) && e.flowsAtMarket then
      b.(lastPriceLiq := PriceFromLiqFlow(e), lastPriceIndic := PriceFromLiqFlow(e))
    else b
  }

  function Accumulate(a: AccumPoolStats, e: AggEvent): AccumPoolStats {
    var b := a.(latestTime := e.time);
    if e.isFeeChange then b.(feeRate := e.feeRate as real / FEE_RATE_MULTIPLIER)
    else if e.isSwap then WithSwap(b, e)
    else if e.isLiq then WithLiq(b, e)
    else b
  }

  // ---------------------------------------------------------------------------------------------
  // What an event does, field by field

  function Size(flow: real): real {
    if flow > 0.0 then flow else -flow
  }

  predicate LargeFlows(e: AggEvent) {
    Size(e.baseFlow) >= 1000.0 && Size(e.quoteFlow) >= 1000.0
  }

  // A swap of a thousand or more of both tokens makes a price.
  predicate MakesPrice(e: AggEvent) {
    e.isSwap && !e.isFeeChange && LargeFlows(e)
  }

  // At this price the base flow pays for the quote flow and the fee on it: what comes out of the
  // pool is less by the fee, what goes in more.
  predicate PaysFor(e: AggEvent, price: real, feeRate: real) {
    price * Size(e.quoteFlow) == Size(e.baseFlow) * if e.baseFlow < 0.0 then 1.0 + feeRate else 1.0 - feeRate
  }

  // A change of liquidity makes a price of its own if it is large and at the market.
  predicate MakesLiqPrice(e: AggEvent) {
    e.isLiq && !e.isSwap && !e.isFeeChange && LargeFlows(e) && e.flowsAtMarket
  }

  predicate LiqPrice(e: AggEvent, price: real) {
    if e.isTickSkewed then price == e.concPrice else price * Size(e.quoteFlow) == Size(e.baseFlow)
  }

  // From a to b an event e sets the fee rate, in millionths; or counts a swap's sizes as volume and
  // its fee on the side it was not given in, and moves its flows, as it does those of a change of
  // liquidity; and sets the prices it makes.
  predicate Does(a: AccumPoolStats, e: AggEvent, b: AccumPoolStats) {
    var swaps, moves := e.isSwap && !e.isFeeChange, (e.isSwap || e.isLiq) && !e.isFeeChange;
    && b.latestTime == e.time
    && (if e.isFeeChange then b.feeRate * 1000000.0 == e.feeRate as real else b.feeRate == a.feeRate)
    && b.baseTvl == a.baseTvl + (if moves then e.baseFlow else 0.0)
    && b.quoteTvl == a.quoteTvl + (if moves then e.quoteFlow else 0.0)
    && b.baseVolume == a.baseVolume + (if swaps then Size(e.baseFlow) else 0.0)
    && b.quoteVolume == a.quoteVolume + (if swaps then Size(e.quoteFlow) else 0.0)
    && b.baseFees == a.baseFees + (if swaps && !e.inBaseQty then Size(e.baseFlow) * a.feeRate else 0.0)
    && b.quoteFees == a.quoteFees + (if swaps && e.inBaseQty then Size(e.quoteFlow) * a.feeRate else 0.0)
    && (if MakesPrice(e) then PaysFor(e, b.lastPriceSwap, a.feeRate) else b.lastPriceSwap == a.lastPriceSwap)
    && (if MakesLiqPrice(e) then LiqPrice(e, b.lastPriceLiq) else b.lastPriceLiq == a.lastPriceLiq)
    && b.lastPriceIndic ==
         if MakesPrice(e) then b.lastPriceSwap else if MakesLiqPrice(e) then b.lastPriceLiq else a.lastPriceIndic
  }

  lemma AccumulateDoes(a: AccumPoolStats, e: AggEvent)
    ensures Does(a, e, Accumulate(a, e))
  {
    hide PriceFromSwapFlow, PriceFromLiqFlow, PaysFor, LiqPrice;
    if IsFlowDualStable(e.baseFlow, e.quoteFlow) {
      SwapPricePays(e, a.feeRate);
      LiqPriceIs(e);
    }
  }

  lemma SwapPricePays(e: AggEvent, feeRate: real)
    requires IsFlowDualStable(e.baseFlow, e.quoteFlow)
    ensures PaysFor(e, PriceFromSwapFlow(e, feeRate), feeRate)
  {
    var b, q, f := Size(e.baseFlow), Size(e.quoteFlow), if e.baseFlow < 0.0 then 1.0 + feeRate else 1.0 - feeRate;
    Quotient(b, q);
    assert (b / q * f) * q == (b / q * q) * f;
  }

  lemma LiqPriceIs(e: AggEvent)
    requires IsFlowDualStable(e.baseFlow, e.quoteFlow)
    ensures LiqPrice(e, PriceFromLiqFlow(e))
  {
    if !e.isTickSkewed {
      Quotient(e.baseFlow, e.quoteFlow);
      SizeOfProduct(e.baseFlow / e.quoteFlow, e.quoteFlow);
    }
  }

  lemma Quotient(x: real, y: real)
    requires y != 0.0
    ensures x / y * y == x
  {
  }

  lemma SizeOfProduct(x: real, y: real)
    ensures Size(x * y) == Size(x) * Size(y)
  {
  }

  // ---------------------------------------------------------------------------------------------
  // The specification: a fold over the raw events

  function Fold(es: seq<AggEvent>): AccumPoolStats {
    if es == [] then ZERO_STATS else Accumulate(Fold(es[..|es| - 1]), es[|es| - 1])
  }

  // The fee rate after a run: that of the last fee change, if there was one.
  predicate FeeAfter(es: seq<AggEvent>, feeRate: real) {
    if es == [] then feeRate == 0.0
    else if es[|es| - 1].isFeeChange then feeRate * 1000000.0 == es[|es| - 1].feeRate as real
    else FeeAfter(es[..|es| - 1], feeRate)
  }

  // The price after a run: what the last swap that made one paid, at the fee rate it met with.
  ghost predicate PriceAfter(es: seq<AggEvent>, price: real) {
    if es == [] then price == 0.0
    else if MakesPrice(es[|es| - 1]) then
      PaidAfter(es[..|es| - 1], es[|es| - 1], price)
    else PriceAfter(es[..|es| - 1], price)
  }

  ghost predicate PaidAfter(before: seq<AggEvent>, e: AggEvent, price: real) {
    exists feeRate :: FeeAfter(before, feeRate) && PaysFor(e, price, feeRate)
  }

  lemma {:induction false} FeeIsFolded(es: seq<AggEvent>, feeRate: real)
    ensures FeeAfter(es, feeRate) <==> Fold(es).feeRate == feeRate
  {
    if es != [] {
      var init, e := es[..|es| - 1], es[|es| - 1];
      FeeIsFolded(init, feeRate);
      hide Accumulate, PaysFor, LiqPrice;
      AccumulateDoes(Fold(init), e);
      if e.isFeeChange { SameQuotient(feeRate, Fold(es).feeRate, 1000000.0); }
    }
  }

  lemma SameQuotient(x: real, y: real, d: real)
    requires d != 0.0
    ensures x * d == y * d <==> x == y
  {
  }

  // The fold has exactly this price and fee rate, and no other price or fee rate is so.
  lemma {:induction false} PriceIsFolded(es: seq<AggEvent>, price: real)
    ensures PriceAfter(es, price) <==> Fold(es).lastPriceSwap == price
  {
    if es != [] {
      var init, e := es[..|es| - 1], es[|es| - 1];
      PriceIsFolded(init, price);
      hide Accumulate, PaysFor, LiqPrice, FeeAfter;
      AccumulateDoes(Fold(init), e);
      if MakesPrice(e) {
        var fee := Fold(init).feeRate;
        FeeIsFolded(init, fee);
        forall f | FeeAfter(init, f) ensures f == fee { FeeIsFolded(init, f); }
        OnePrice(e, price, Fold(es).lastPriceSwap, fee);
      }
    }
  }

  lemma OnePrice(e: AggEvent, x: real, y: real, feeRate: real)
    requires LargeFlows(e) && PaysFor(e, y, feeRate)
    ensures PaysFor(e, x, feeRate) <==> x == y
  {
    SameQuotient(x, y, Size(e.quoteFlow));
  }

  // The snapshots NextEvent leaves behind.
  function Snaps(es: seq<AggEvent>): seq<AccumPoolStats> {
    if es == [] then []
    else
      var init := es[..|es| - 1];
      if es[|es| - 1].time != Fold(init).latestTime && Fold(init).latestTime != 0
      then Snaps(init) + [Fold(init)]
      else Snaps(init)
  }

  // Snapshots and running counter together.
  function Readable(es: seq<AggEvent>): seq<AccumPoolStats> {
    Snaps(es) + [Fold(es)]
  }

  // One state per event time.
  function States(es: seq<AggEvent>): seq<AccumPoolStats> {
    if es == [] then [] else Readable(es)
  }

  // Event times are positive and never go back.
  predicate TimeOrdered(es: seq<AggEvent>) {
    es == [] ||
    (es[|es| - 1].time > 0 && (|es| > 1 ==> es[|es| - 2].time <= es[|es| - 1].time) && TimeOrdered(es[..|es| - 1]))
  }

  // The events with lo <= time < hi.
  function Between(es: seq<AggEvent>, lo: int, hi: int): seq<AggEvent> {
    if es == [] then []
    else
      var rest := Between(es[..|es| - 1], lo, hi);
      if lo <= es[|es| - 1].time < hi then rest + [es[|es| - 1]] else rest
  }

  function UpTo(es: seq<AggEvent>, t: int): seq<AggEvent> {
    if es == [] then []
    else
      var rest := UpTo(es[..|es| - 1], t);
      if es[|es| - 1].time <= t then rest + [es[|es| - 1]] else rest
  }

  function Times(es: seq<AggEvent>): set<int> {
    if es == [] then {} else Times(es[..|es| - 1]) + {es[|es| - 1].time}
  }

  // Positive and strictly rising times.
  predicate Rising(s: seq<AccumPoolStats>) {
    s == [] ||
    (s[|s| - 1].latestTime > 0 && (|s| > 1 ==> s[|s| - 2].latestTime < s[|s| - 1].latestTime) && Rising(s[..|s| - 1]))
  }

  predicate NotEarlier(s: seq<AccumPoolStats>) {
    s == [] || ((|s| > 1 ==> s[|s| - 2].latestTime <= s[|s| - 1].latestTime) && NotEarlier(s[..|s| - 1]))
  }

  lemma {:induction false} RisingIsNotEarlier(s: seq<AccumPoolStats>)
    requires Rising(s)
    ensures NotEarlier(s)
  {
    if s != [] { RisingIsNotEarlier(s[..|s| - 1]); }
  }

  lemma {:induction false} RisingAt(s: seq<AccumPoolStats>, i: nat)
    requires Rising(s) && i < |s|
    ensures s[i].latestTime > 0
  {
    if i < |s| - 1 { RisingAt(s[..|s| - 1], i); }
  }

  lemma {:induction false} NotEarlierAt(s: seq<AccumPoolStats>, i: nat, j: nat)
    requires NotEarlier(s) && i <= j < |s|
    ensures s[i].latestTime <= s[j].latestTime
  {
    if j < |s| - 1 {
      NotEarlierAt(s[..|s| - 1], i, j);
    } else if i < j {
      assert s[..|s| - 1][j - 1] == s[j - 1];
      NotEarlierAt(s[..|s| - 1], i, j - 1);
    }
  }

  // How many of the first n states are earlier than t.
  function CountBefore(s: seq<AccumPoolStats>, t: int, n: nat): (c: nat)
    requires n <= |s|
    ensures c <= n
  {
    if n == 0 then 0
    else
      var c := CountBefore(s, t, n - 1);
      if c == n - 1 && s[c].latestTime < t then n else c
  }

  // The number of leading states earlier than t.
  function Before(s: seq<AccumPoolStats>, t: int): (c: nat)
    ensures c <= |s|
  {
    CountBefore(s, t, |s|)
  }

  lemma {:induction false} CountBeforeSplits(s: seq<AccumPoolStats>, t: int, n: nat)
    requires n <= |s|
    ensures var c := CountBefore(s, t, n);
      (forall i :: 0 <= i < c ==> s[i].latestTime < t) && (c < n ==> s[c].latestTime >= t)
  {
    if n > 0 { CountBeforeSplits(s, t, n - 1); }
  }

  lemma BeforeSplits(s: seq<AccumPoolStats>, t: int)
    ensures forall i :: 0 <= i < Before(s, t) ==> s[i].latestTime < t
    ensures Before(s, t) < |s| ==> s[Before(s, t)].latestTime >= t
  {
    CountBeforeSplits(s, t, |s|);
  }

  // A state further on cannot be earlier.
  lemma BeforeIs(s: seq<AccumPoolStats>, t: int, c: nat)
    requires c <= |s| && (forall i :: 0 <= i < c ==> s[i].latestTime < t) && (c < |s| ==> s[c].latestTime >= t)
    ensures Before(s, t) == c
  {
    BeforeSplits(s, t);
  }

  lemma {:induction false} BeforeIsSplit(s: seq<AccumPoolStats>, t: int, c: nat)
    requires NotEarlier(s) && c <= |s| && (c > 0 ==> s[c - 1].latestTime < t) && (c < |s| ==> s[c].latestTime >= t)
    ensures Before(s, t) == c
  {
    forall i | 0 <= i < c ensures s[i].latestTime < t { NotEarlierAt(s, i, c - 1); }
    BeforeIs(s, t, c);
  }

  lemma {:induction false} FoldTime(es: seq<AggEvent>)
    requires es != []
    ensures Fold(es).latestTime == es[|es| - 1].time
  {
  }

  // What one event does to the states: a later time adds one, the same time replaces the last.
  lemma StatesStep(es: seq<AggEvent>)
    requires TimeOrdered(es) && es != []
    ensures var init := es[..|es| - 1];
      if init != [] && es[|es| - 1].time == init[|init| - 1].time
      then |States(init)| > 0 && States(es) == States(init)[..|States(init)| - 1] + [Fold(es)]
      else States(es) == States(init) + [Fold(es)]
  {
    var init := es[..|es| - 1];
    if init != [] {
      FoldTime(init);
      assert init[|init| - 1] == es[|es| - 2] && TimeOrdered(init);
    } else {
      assert Fold(init) == ZERO_STATS && Snaps(init) == [] && States(init) == [];
    }
  }

  lemma {:induction false} StatesOrdered(es: seq<AggEvent>)
    requires TimeOrdered(es)
    ensures Rising(States(es))
    ensures es != [] ==> States(es) != [] && States(es)[|States(es)| - 1] == Fold(es)
  {
    if es != [] {
      var init, last := es[..|es| - 1], es[|es| - 1];
      var prior := States(init);
      StatesOrdered(init);
      StatesStep(es);
      FoldTime(es);
      if init != [] {
        FoldTime(init);
        assert init[|init| - 1] == es[|es| - 2];
        RisingAppend(if last.time == init[|init| - 1].time then prior[..|prior| - 1] else prior, Fold(es));
      } else {
        RisingAppend([], Fold(es));
      }
    }
  }

  lemma {:induction false} RisingAppend(s: seq<AccumPoolStats>, x: AccumPoolStats)
    requires Rising(s) && x.latestTime > 0 && (s != [] ==> s[|s| - 1].latestTime < x.latestTime)
    ensures Rising(s + [x])
  {
    assert (s + [x])[..|s|] == s;
  }

  lemma {:induction false} UpToAll(es: seq<AggEvent>, t: int)
    requires TimeOrdered(es) && (es != [] ==> es[|es| - 1].time <= t)
    ensures UpTo(es, t) == es
  {
    if es != [] {
      var init := es[..|es| - 1];
      if init != [] { assert init[|init| - 1] == es[|es| - 2]; }
      UpToAll(init, t);
    }
  }

  // The first c events, and no others, are not later than t.
  predicate NoneLater(es: seq<AggEvent>, c: int, t: int) {
    forall i :: 0 <= i < |es| ==> (i < c <==> es[i].time <= t)
  }

  // The events up to a time are the first ones of an ordered run: all that are not later.
  lemma {:induction false} UpToIs(es: seq<AggEvent>, t: int) returns (c: nat)
    requires TimeOrdered(es)
    ensures c <= |es| && UpTo(es, t) == es[..c]
    ensures NoneLater(es, c, t)
  {
    hide NoneLater;
    if es == [] || es[|es| - 1].time <= t {
      c := |es|;
      UpToAll(es, t);
      AllInTime(es, t);
      assert es[..c] == es;
    } else {
      c := UpToIs(es[..|es| - 1], t);
      LastIsLater(es, c, t);
      assert es[..|es| - 1][..c] == es[..c];
    }
  }

  lemma {:induction false} AllInTime(es: seq<AggEvent>, t: int)
    requires TimeOrdered(es) && (es != [] ==> es[|es| - 1].time <= t)
    ensures NoneLater(es, |es|, t)
  {
    forall i | 0 <= i < |es| ensures es[i].time <= t { EventNotLater(es, i); }
  }

  lemma LastIsLater(es: seq<AggEvent>, c: nat, t: int)
    requires es != [] && es[|es| - 1].time > t && c < |es| && NoneLater(es[..|es| - 1], c, t)
    ensures NoneLater(es, c, t)
  {
    forall i | 0 <= i < |es| - 1 ensures es[i] == es[..|es| - 1][i] {}
  }

  lemma {:induction false} EventNotLater(es: seq<AggEvent>, i: nat)
    requires TimeOrdered(es) && i < |es|
    ensures es[i].time <= es[|es| - 1].time
  {
    if i < |es| - 1 { EventNotLater(es[..|es| - 1], i); }
  }

  lemma {:induction false} UpToOrdered(es: seq<AggEvent>, t: int)
    requires TimeOrdered(es)
    ensures TimeOrdered(UpTo(es, t))
  {
    if es != [] {
      UpToOrdered(es[..|es| - 1], t);
      if es[|es| - 1].time <= t { UpToAll(es, t); }
    }
  }

  // The central fact: the states of a history that are not later than t are exactly the states
  // of the events up to t.
  lemma {:induction false} StatesUpTo(es: seq<AggEvent>, t: int)
    requires TimeOrdered(es)
    ensures States(UpTo(es, t)) == States(es)[..Before(States(es), t + 1)]
  {
    if es != [] {
      if es[|es| - 1].time <= t {
        UpToAll(es, t);
        AllStatesBefore(es, t);
      } else {
        StatesUpTo(es[..|es| - 1], t);
        LaterEventKeeps(es, t);
      }
    }
  }

  lemma {:induction false} AllStatesBefore(es: seq<AggEvent>, t: int)
    requires TimeOrdered(es) && es != [] && es[|es| - 1].time <= t
    ensures Before(States(es), t + 1) == |States(es)|
  {
    var S := States(es);
    StatesOrdered(es);
    FoldTime(es);
    RisingIsNotEarlier(S);
    BeforeIsSplit(S, t + 1, |S|);
  }

  // An event later than t leaves the states up to t alone.
  lemma {:induction false} LaterEventKeeps(es: seq<AggEvent>, t: int)
    requires TimeOrdered(es) && es != [] && es[|es| - 1].time > t
    ensures var S, prior := States(es), States(es[..|es| - 1]);
      Before(S, t + 1) == Before(prior, t + 1) && S[..Before(S, t + 1)] == prior[..Before(prior, t + 1)]
  {
    hide States, Fold, Before;
    var init := es[..|es| - 1];
    StatesStep(es);
    StatesOrdered(init);
    FoldTime(es);
    if init != [] && es[|es| - 1].time == init[|init| - 1].time {
      FoldTime(init);
      BeforeSame(States(es), States(init), t + 1, |States(init)| - 1);
    } else {
      BeforeSame(States(es), States(init), t + 1, |States(init)|);
    }
  }

  // Two state lists that agree up to m, and are not before t there, agree on what is before t.
  lemma BeforeSame(s: seq<AccumPoolStats>, p: seq<AccumPoolStats>, t: int, m: nat)
    requires m <= |s| && m <= |p| && s[..m] == p[..m]
    requires (m < |s| ==> s[m].latestTime >= t) && (m < |p| ==> p[m].latestTime >= t)
    ensures Before(s, t) == Before(p, t) && s[..Before(s, t)] == p[..Before(p, t)]
  {
    var c := Before(p, t);
    BeforeSplits(p, t);
    assert c <= m;
    assert s[..c] == s[..m][..c] && p[..c] == p[..m][..c];
    forall i | 0 <= i < m ensures s[i] == p[i] {
      assert s[..m][i] == p[..m][i];
    }
    BeforeIs(s, t, c);
  }

  lemma {:induction false} CountIsTimes(es: seq<AggEvent>)
    requires TimeOrdered(es)
    ensures |States(es)| == |Times(es)|
    ensures forall x :: x in Times(es) ==> es != [] && x <= es[|es| - 1].time
  {
    if es != [] {
      var init, last := es[..|es| - 1], es[|es| - 1];
      CountIsTimes(init);
      StatesStep(es);
      if init != [] { assert init[|init| - 1] == es[|es| - 2]; }
      if init != [] && last.time == init[|init| - 1].time {
        assert last.time in Times(init);
      }
    }
  }

  // Reading a history at time t: the state to answer with, and how many event times it covers.
  lemma {:induction false} StateAt(es: seq<AggEvent>, t: int)
    requires TimeOrdered(es)
    ensures var c := Before(States(es), t + 1);
      && Fold(UpTo(es, t)) == (if c == 0 then ZERO_STATS else States(es)[c - 1])
      && c == |Times(UpTo(es, t))|
      && (c == 0 <==> UpTo(es, t) == [])
  {
    StatesUpTo(es, t);
    UpToOrdered(es, t);
    StatesOrdered(UpTo(es, t));
    CountIsTimes(UpTo(es, t));
  }

  lemma {:induction false} AnswerAt(es: seq<AggEvent>, t: int, c: nat)
    requires TimeOrdered(es) && c <= |States(es)|
    requires (c > 0 ==> States(es)[c - 1].latestTime <= t) && (c < |States(es)| ==> States(es)[c].latestTime > t)
    ensures Fold(UpTo(es, t)) == (if c == 0 then ZERO_STATS else States(es)[c - 1])
    ensures |Times(UpTo(es, t))| == c
  {
    hide States, UpTo, Fold, Times, Before, NotEarlier, TimeOrdered;
    StateAt(es, t);
    StatesOrdered(es);
    RisingIsNotEarlier(States(es));
    BeforeIsSplit(States(es), t + 1, c);
  }

  // ---------------------------------------------------------------------------------------------
  // The object

  // The states with lo <= time < hi.
  function Window(s: seq<AccumPoolStats>, lo: int, hi: int): seq<AccumPoolStats> {
    if s == [] then []
    else
      var rest := Window(s[..|s| - 1], lo, hi);
      if lo <= s[|s| - 1].latestTime < hi then rest + [s[|s| - 1]] else rest
  }

  lemma {:induction false} WindowHolds(s: seq<AccumPoolStats>, lo: int, hi: int)
    ensures forall x :: x in Window(s, lo, hi) <==> x in s && lo <= x.latestTime < hi
  {
    if s != [] {
      var init, last := s[..|s| - 1], s[|s| - 1];
      WindowHolds(init, lo, hi);
      assert s == init + [last];
    }
  }

  // Scanning sorted states from the end and stopping at the first one before lo.
  lemma {:induction false} WindowOfTail(s: seq<AccumPoolStats>, i: nat, lo: int, hi: int)
    requires NotEarlier(s) && i <= |s| && (i > 0 ==> s[i - 1].latestTime < lo)
    ensures Window(s, lo, hi) == Window(s[i..], lo, hi)
  {
    if i < |s| {
      assert s[i..][..|s| - i - 1] == s[..|s| - 1][i..];
      WindowOfTail(s[..|s| - 1], i, lo, hi);
    } else if s != [] {
      WindowOfTail(s[..|s| - 1], i - 1, lo, hi);
      assert s[..|s| - 1][i - 1..] == [];
    }
  }

  lemma {:induction false} WindowAppendFront(x: AccumPoolStats, s: seq<AccumPoolStats>, lo: int, hi: int)
    ensures Window([x] + s, lo, hi) == (if lo <= x.latestTime < hi then [x] else []) + Window(s, lo, hi)
  {
    if s == [] {
      assert [x] + s == [x];
    } else {
      assert ([x] + s)[..|s|] == [x] + s[..|s| - 1];
      WindowAppendFront(x, s[..|s| - 1], lo, hi);
    }
  }

  class PoolTradingHistory {
    var statsCounter: AccumPoolStats
    var timeSnaps: seq<AccumPoolStats>
    ghost var events: seq<AggEvent>     // the events ingested so far

    ghost predicate Valid()
      reads this
    {
      statsCounter == Fold(events) && timeSnaps == Snaps(events)
    }

    constructor ()
      ensures Valid() && events == []
    {
      statsCounter, timeSnaps, events := ZERO_STATS, [], [];
    }

    method NextEvent(r: AggEvent)
      requires Valid()
      modifies this
      ensures Valid() && events == old(events) + [r] && Does(old(statsCounter), r, statsCounter)
    {
      if r.time != statsCounter.latestTime && statsCounter.latestTime != 0 {
        timeSnaps := timeSnaps + [statsCounter];
      }
      AccumulateEvent(r);
      events := events + [r];
      assert events[..|events| - 1] == old(events);
    }

    method AccumulateEvent(e: AggEvent)
      modifies this`statsCounter
      ensures statsCounter == Accumulate(old(statsCounter), e) && Does(old(statsCounter), e, statsCounter)
    {
      AccumulateDoes(statsCounter, e);
      statsCounter := statsCounter.(latestTime := e.time);
      if e.isFeeChange {
        statsCounter := statsCounter.(feeRate := e.feeRate as real / FEE_RATE_MULTIPLIER);
      } else if e.isSwap {
        AccumSwapType(e);
      } else if e.isLiq {
        AccumLiqType(e);
      }
    }

    method AccumSwapType(e: AggEvent)
      modifies this`statsCounter
      ensures statsCounter == WithSwap(old(statsCounter), e)
    {
      AccumulateFlows(e);
      statsCounter := statsCounter.(
        baseVolume := statsCounter.baseVolume + Abs(e.baseFlow),
        quoteVolume := statsCounter.quoteVolume + Abs(e.quoteFlow));
      if e.inBaseQty {
        statsCounter := statsCounter.(quoteFees := statsCounter.quoteFees + Abs(e.quoteFlow) * statsCounter.feeRate);
      } else {
        statsCounter := statsCounter.(baseFees := statsCounter.baseFees + Abs(e.baseFlow) * statsCounter.feeRate);
      }
      if IsFlowDualStable(e.baseFlow, e.quoteFlow) {
        var price := PriceFromSwapFlow(e, statsCounter.feeRate);
        statsCounter := statsCounter.(lastPriceSwap := price, lastPriceIndic := price);
      }
    }

    method AccumLiqType(e: AggEvent)
      modifies this`statsCounter
      ensures statsCounter == WithLiq(old(statsCounter), e)
    {
      AccumulateFlows(e);
      if IsFlowDualStable(e.baseFlow, e.quoteFlow) && e.flowsAtMarket {
        var price := PriceFromLiqFlow(e);
        statsCounter := statsCounter.(lastPriceLiq := price, lastPriceIndic := price);
      }
    }

    method AccumulateFlows(e: AggEvent)
      modifies this`statsCounter
      ensures statsCounter == WithFlows(old(statsCounter), e)
    {
      statsCounter := statsCounter.(
        baseTvl := statsCounter.baseTvl + e.baseFlow,
        quoteTvl := statsCounter.quoteTvl + e.quoteFlow);
    }

    // The pool as of histTime: exactly the fold of the events up to that time, with the number
    // of their distinct times. (A history without events counts itself once.)
    method RetrievePoolAccumBefore(histTime: int) returns (stats: AccumPoolStats, eventCount: nat)
      requires Valid() && TimeOrdered(events)
      ensures stats == Fold(UpTo(events, histTime))
      ensures eventCount == if events == [] && histTime >= 0 then 1 else |Times(UpTo(events, histTime))|
      ensures exists c :: 0 <= c <= |events| && stats == Fold(events[..c]) && NoneLater(events, c, histTime)
    {
      ghost var S := States(events);
      ghost var c := UpToIs(events, histTime);
      if histTime >= statsCounter.latestTime {
        AnswerAt(events, histTime, |S|);
        return statsCounter, |timeSnaps| + 1;
      }
      var i := |timeSnaps|;
      while i > 0
        invariant 0 <= i <= |timeSnaps|
        invariant events != [] ==> i < |S| && S[i].latestTime > histTime
      {
        i := i - 1;
        assert timeSnaps[i] == S[i];
        if timeSnaps[i].latestTime <= histTime {
          AnswerAt(events, histTime, i + 1);
          return timeSnaps[i], i + 1;
        }
      }
      AnswerAt(events, histTime, 0);
      return ZERO_STATS, 0;
    }

    // The states in [startTime, endTime), ascending, with the state to open from: the last one
    // before startTime; when there is none, the first snapshot of the pool, unless the pool has
    // none or begins only after endTime.
    method RetrievePoolAccumSeries(startTime: int, endTime: int) returns (openVal: AccumPoolStats,
            series: seq<AccumPoolStats>)
      requires Valid() && TimeOrdered(events)
      ensures series == Window(Readable(events), startTime, endTime)
      ensures startTime <= endTime ==> openVal == OpenOf(Readable(events), startTime, endTime)
      ensures startTime <= endTime ==> Opens(openVal, timeSnaps + [statsCounter], startTime, endTime)
      ensures forall x :: x in series <==> x in Readable(events) && startTime <= x.latestTime < endTime
    {
      hide Window, NotEarlier, TimeOrdered, Opens, Reversed, Snaps, Fold;
      ghost var R := Readable(events);
      ReadableOrdered(events);
      OpenOfOpens(R, startTime, endTime);
      WindowHolds(R, startTime, endTime);
      NotEarlierAt(R, 0, |R| - 1);
      if startTime <= statsCounter.latestTime < endTime {
        series := [statsCounter];
      } else if |timeSnaps| > 0 && endTime < timeSnaps[0].latestTime {
        assert R[0] == timeSnaps[0];
        AllLater(R, startTime, endTime);
        return ZERO_STATS, [];
      } else if statsCounter.latestTime < startTime {
        AllEarlier(R, startTime, endTime);
        return statsCounter, [];
      } else {
        series := [];
      }
      openVal, series := ScanSnaps(R, startTime, endTime, series);
      series := Reversed(series);
      if openVal.latestTime == 0 && |timeSnaps| > 0 {
        openVal := timeSnaps[0];
      }
    }

    // The backward scan over the snapshots, R being the snapshots and the counter.
    method ScanSnaps(ghost R: seq<AccumPoolStats>, startTime: int, endTime: int, found: seq<AccumPoolStats>)
      returns (openVal: AccumPoolStats, series: seq<AccumPoolStats>)
      requires R == timeSnaps + [statsCounter] && NotEarlier(R)
      requires (forall i :: 0 <= i < |timeSnaps| ==> timeSnaps[i].latestTime > 0) && statsCounter.latestTime >= startTime
      requires found == if statsCounter.latestTime < endTime then [statsCounter] else []
      ensures Reversed(series) == Window(R, startTime, endTime)
      ensures openVal == if Before(R, startTime) > 0 then R[Before(R, startTime) - 1] else ZERO_STATS
      ensures openVal.latestTime == 0 <==> Before(R, startTime) == 0
    {
      series, openVal := found, ZERO_STATS;
      var i := |timeSnaps|;
      ghost var W := Window(R[i..], startTime, endTime);
      ScanStep(R, i, startTime, endTime);
      while i > 0
        invariant 0 <= i <= |timeSnaps|
        invariant W == Window(R[i..], startTime, endTime) && Reversed(series) == W
        invariant R[i].latestTime >= startTime
      {
        i := i - 1;
        assert timeSnaps[i] == R[i];
        if startTime <= timeSnaps[i].latestTime < endTime {
          ScanStep(R, i, startTime, endTime);
          ReversedBack(timeSnaps[i], series);
          series := series + [timeSnaps[i]];
          W := [timeSnaps[i]] + W;
        } else if timeSnaps[i].latestTime < startTime {
          ScanStops(R, i, startTime, endTime);
          return timeSnaps[i], series;
        } else {
          ScanStep(R, i, startTime, endTime);
        }
      }
      assert R[0..] == R;
      BeforeIs(R, startTime, 0);
    }
  }

  lemma {:induction false} AllLater(R: seq<AccumPoolStats>, lo: int, hi: int)
    requires NotEarlier(R) && R != [] && hi < R[0].latestTime
    ensures Window(R, lo, hi) == [] && (lo <= hi ==> Before(R, lo) == 0)
  {
    forall i | 0 <= i < |R| ensures R[i].latestTime > hi { NotEarlierAt(R, 0, i); }
    WindowEmpty(R, lo, hi);
    if lo <= hi { BeforeIs(R, lo, 0); }
  }

  lemma {:induction false} AllEarlier(R: seq<AccumPoolStats>, lo: int, hi: int)
    requires NotEarlier(R) && R != [] && R[|R| - 1].latestTime < lo
    ensures Window(R, lo, hi) == [] && Before(R, lo) == |R|
  {
    forall i | 0 <= i < |R| ensures R[i].latestTime < lo { NotEarlierAt(R, i, |R| - 1); }
    WindowEmpty(R, lo, hi);
    BeforeIs(R, lo, |R|);
  }

  lemma {:induction false} ReversedBack(x: AccumPoolStats, s: seq<AccumPoolStats>)
    ensures Reversed(s + [x]) == [x] + Reversed(s)
  {
  }

  lemma {:induction false} ScanStep(R: seq<AccumPoolStats>, i: nat, lo: int, hi: int)
    requires i < |R| && lo <= R[i].latestTime
    ensures Window(R[i..], lo, hi) ==
      if R[i].latestTime < hi then [R[i]] + Window(R[i + 1..], lo, hi) else Window(R[i + 1..], lo, hi)
  {
    assert R[i..] == [R[i]] + R[i + 1..];
    WindowAppendFront(R[i], R[i + 1..], lo, hi);
  }

  // The first state before the window, seen from the end, is the one to open from.
  lemma {:induction false} ScanStops(R: seq<AccumPoolStats>, i: nat, lo: int, hi: int)
    requires NotEarlier(R) && i + 1 < |R| && R[i].latestTime < lo <= R[i + 1].latestTime
    ensures Window(R, lo, hi) == Window(R[i + 1..], lo, hi)
    ensures Before(R, lo) == i + 1
  {
    WindowOfTail(R, i + 1, lo, hi);
    BeforeIsSplit(R, lo, i + 1);
  }

  lemma {:induction false} ReadableOrdered(es: seq<AggEvent>)
    requires TimeOrdered(es)
    ensures NotEarlier(Readable(es))
    ensures forall i :: 0 <= i < |Snaps(es)| ==> Snaps(es)[i].latestTime > 0
    ensures es != [] ==> Readable(es) == States(es)
  {
    StatesOrdered(es);
    if es != [] {
      RisingIsNotEarlier(States(es));
      forall i | 0 <= i < |Snaps(es)| ensures Snaps(es)[i].latestTime > 0 {
        RisingAt(States(es), i);
      }
    }
  }

  lemma {:induction false} WindowEmpty(s: seq<AccumPoolStats>, lo: int, hi: int)
    requires forall i :: 0 <= i < |s| ==> s[i].latestTime < lo || hi <= s[i].latestTime
    ensures Window(s, lo, hi) == []
  {
    if s != [] {
      WindowEmpty(s[..|s| - 1], lo, hi);
    }
  }

  // The state a series that starts at startTime opens from.
  function OpenOf(s: seq<AccumPoolStats>, startTime: int, endTime: int): AccumPoolStats {
    var c := Before(s, startTime);
    if c > 0 then s[c - 1]
    else if |s| <= 1 || endTime < s[0].latestTime then ZERO_STATS
    else s[0]
  }

  // A series opens in the last state before it begins. Before the first state it opens in that one,
  // unless the series ends before it or there is no other.
  ghost predicate Opens(o: AccumPoolStats, s: seq<AccumPoolStats>, startTime: int, endTime: int) {
    if s != [] && s[0].latestTime < startTime then
      exists i :: 0 <= i < |s| && o == s[i] && s[i].latestTime < startTime && forall j :: i < j < |s| ==> s[j].latestTime >= startTime
    else
      o == if |s| > 1 && s[0].latestTime <= endTime then s[0] else ZERO_STATS
  }

  lemma {:induction false} OpenOfOpens(s: seq<AccumPoolStats>, startTime: int, endTime: int)
    requires NotEarlier(s)
    ensures Opens(OpenOf(s, startTime, endTime), s, startTime, endTime)
  {
    hide NotEarlier, Before;
    BeforeSplits(s, startTime);
    var c := Before(s, startTime);
    if c > 0 {
      forall j | c - 1 < j < |s| ensures s[j].latestTime >= startTime { NotEarlierAt(s, c, j); }
      assert OpenOf(s, startTime, endTime) == s[c - 1];
    }
  }
}
