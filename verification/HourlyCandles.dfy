// Combining hourly candles into coarser ones (CombineHourlyCandles in model/candle.go), and why
// the result is what building the coarse candles directly would give.
module HourlyCandles {
  import opened TradingHistory
  import opened Candles

  const HOUR: int := 3600
  const NO_CANDLE := Candle(0.0, 0.0, 0.0, 0.0, 0.0, 0.0, 0.0, 0.0, 0.0, 0.0, 0, 0)

  // The start of the group a time belongs to.
  function GroupStart(time: int, period: int): (g: int)
    requires period > 0
    ensures g <= time < g + period
  {
    time - time % period
  }

  // One more hour in a combined candle. Time 0 marks a candle that has not seen any.
  function Absorb(c: Candle, h: Candle, period: int): Candle
    requires period > 0
  {
    var d := if c.time != 0 then c else
      c.(time := GroupStart(h.time, period), period := period, priceOpen := h.priceOpen, minPrice := h.minPrice,
         maxPrice := h.maxPrice, feeRateOpen := h.feeRateOpen);
    d.(priceClose := h.priceClose, volumeBase := d.volumeBase + h.volumeBase, volumeQuote := d.volumeQuote + h.volumeQuote,
       tvlBase := h.tvlBase, tvlQuote := h.tvlQuote, feeRateClose := h.feeRateClose,
       maxPrice := if d.maxPrice < h.maxPrice then h.maxPrice else d.maxPrice,
       minPrice := if d.minPrice > h.minPrice then h.minPrice else d.minPrice)
  }

  function AddHour(combined: seq<Candle>, h: Candle, period: int): seq<Candle>
    requires period > 0
  {
    var n := |combined|;
    if n > 0 && combined[n - 1].time == GroupStart(h.time, period)
    then combined[n - 1 := Absorb(combined[n - 1], h, period)]
    else combined + [Absorb(NO_CANDLE, h, period)]
  }

  // All hours in [startTime, endTime), as long as there are fewer than n groups.
  function Combine(candles: seq<Candle>, startTime: int, endTime: int, n: int, period: int): seq<Candle>
    requires period > 0
  {
    if candles == [] then []
    else
      var combined, h := Combine(candles[..|candles| - 1], startTime, endTime, n, period), candles[|candles| - 1];
      if h.time < startTime || h.time >= endTime || |combined| >= n then combined else AddHour(combined, h, period)
  }

  // One candle an hour, without gaps.
  predicate EveryHour(candles: seq<Candle>) {
    candles == [] ||
    (candles[|candles| - 1].time >= 0 && EveryHour(candles[..|candles| - 1]) &&
     (|candles| > 1 ==> candles[|candles| - 1].time == candles[|candles| - 2].time + HOUR))
  }

  // A loop that breaks has combined all there is to combine.
  lemma {:induction false} CombineStops(candles: seq<Candle>, i: nat, startTime: int, endTime: int, n: int, period: int)
    requires period > 0 && EveryHour(candles) && i <= |candles|
    requires (i < |candles| && candles[i].time >= endTime) || |Combine(candles[..i], startTime, endTime, n, period)| >= n || i == |candles|
    ensures Combine(candles, startTime, endTime, n, period) == Combine(candles[..i], startTime, endTime, n, period)
  {
    if i == |candles| {
      assert candles[..i] == candles;
    } else {
      var init := candles[..|candles| - 1];
      assert init[..i] == candles[..i];
      if i < |init| { HoursRise(candles, i); }
      CombineStops(init, i, startTime, endTime, n, period);
    }
  }

  lemma {:induction false} HoursRise(candles: seq<Candle>, i: nat)
    requires EveryHour(candles) && i < |candles|
    ensures candles[i].time <= candles[|candles| - 1].time
  {
    if i < |candles| - 1 {
      HoursRise(candles[..|candles| - 1], i);
    }
  }

  lemma {:induction false} EveryHourPrefix(candles: seq<Candle>, i: nat)
    requires EveryHour(candles) && i <= |candles|
    ensures EveryHour(candles[..i])
    ensures i > 0 ==> candles[i - 1].time >= 0 && (i > 1 ==> candles[i - 1].time == candles[i - 2].time + HOUR)
  {
    if i < |candles| {
      assert candles[..|candles| - 1][..i] == candles[..i];
      EveryHourPrefix(candles[..|candles| - 1], i);
    } else {
      assert candles[..i] == candles;
    }
  }

  // ---------------------------------------------------------------------------------------------
  // Group arithmetic

  lemma GroupBounds(t: int, period: int)
    requires period > 0
    ensures GroupStart(t, period) <= t < GroupStart(t, period) + period
    ensures GroupStart(t, period) == t / period * period
    ensures t >= 0 ==> GroupStart(t, period) >= 0
  {
  }

  lemma GroupUnique(t: int, g: int, period: int)
    requires period > 0 && g == GroupStart(g, period) && g <= t < g + period
    ensures GroupStart(t, period) == g && t / period == g / period
  {
    GroupBounds(t, period);
    GroupBounds(g, period);
    var a, b := t / period, g / period;
    if a < b { MulStep(a, b, period); }
    if a > b { MulStep(b, a, period); }
  }

  lemma MulStep(a: int, b: int, p: int)
    requires a < b && p > 0
    ensures a * p + p <= b * p
    decreases b - a
  {
    assert (a + 1) * p == a * p + p;
    if a + 1 < b { MulStep(a + 1, b, p); }
  }

  lemma GroupNext(g: int, period: int)
    requires period > 0 && g == GroupStart(g, period)
    ensures g + period == GroupStart(g + period, period) && (g + period) / period == g / period + 1
  {
    var a := g / period;
    assert g == a * period by { GroupBounds(g, period); }
    assert (a + 1) * period == g + period;
    GroupBounds(g + period, period);
    var b := (g + period) / period;
    if b < a + 1 { MulStep(b, a + 1, period); }
    if b > a + 1 { MulStep(a + 1, b, period); }
  }

  // The next hour falls in the same group or in the next one.
  lemma HourGroups(t: int, period: int)
    requires period >= HOUR
    ensures var g := GroupStart(t, period);
      if t + HOUR < g + period
      then GroupStart(t + HOUR, period) == g && (t + HOUR) / period == t / period
      else GroupStart(t + HOUR, period) == g + period && (t + HOUR) / period == t / period + 1
  {
    var g := GroupStart(t, period);
    GroupBounds(t, period);
    GroupIdempotent(t, period);
    GroupUnique(t, g, period);
    if t + HOUR < g + period {
      GroupUnique(t + HOUR, g, period);
    } else {
      GroupNext(g, period);
      GroupUnique(t + HOUR, g + period, period);
    }
  }

  lemma GroupIdempotent(t: int, period: int)
    requires period > 0
    ensures GroupStart(GroupStart(t, period), period) == GroupStart(t, period)
  {
    var a := t / period;
    assert GroupStart(t, period) == a * period by { GroupBounds(t, period); }
    var g := a * period;
    GroupBounds(g, period);
    var b := g / period;
    if b < a { MulStep(b, a, period); }
    if b > a { MulStep(a, b, period); }
  }

  // ---------------------------------------------------------------------------------------------
  // The times of combined candles

  // One candle a period from some period of [begin, end) on.
  ghost predicate EveryPeriod(cs: seq<Candle>, begin: int, end: int, period: int)
    requires period > 0
  {
    && (forall i :: 0 <= i < |cs| ==> begin <= cs[i].time < end && cs[i].time % period == 0)
    && (forall i :: 0 < i < |cs| ==> cs[i].time == cs[i - 1].time + period)
  }

  // Each hour of the window is in the period of one of the candles.
  ghost predicate CoversHours(cs: seq<Candle>, hours: seq<Candle>, begin: int, end: int, period: int) {
    forall k :: 0 <= k < |hours| && begin <= hours[k].time < end ==>
      exists i :: 0 <= i < |cs| && cs[i].time <= hours[k].time < cs[i].time + period
  }

  // The last hour taken is in the last group, or no more are taken.
  ghost predicate LastTaken(cs: seq<Candle>, combined: seq<Candle>, startTime: int, endTime: int, n: int, period: int)
    requires period > 0
  {
    combined != [] ==>
      && cs != [] && cs[|cs| - 1].time >= startTime
      && (cs[|cs| - 1].time >= endTime || |combined| >= n || combined[|combined| - 1].time == GroupStart(cs[|cs| - 1].time, period))
  }

  lemma GroupAligned(t: int, period: int)
    requires period > 0
    ensures GroupStart(t, period) % period == 0
  {
    GroupIdempotent(t, period);
  }

  lemma GroupNotBefore(t: int, s: int, period: int)
    requires period > 0 && s % period == 0 && s <= t
    ensures s <= GroupStart(t, period)
  {
    hide GroupStart;
    GroupAt(s, period);
    GroupBounds(t, period);
    GroupIdempotent(t, period);
    if GroupStart(t, period) < s {
      GroupUnique(s, GroupStart(t, period), period);
    }
  }

  lemma GroupAt(s: int, period: int)
    requires period > 0
    ensures s % period == 0 <==> GroupStart(s, period) == s
  {
  }

  lemma AddHourTimes(combined: seq<Candle>, h: Candle, begin: int, end: int, period: int)
    requires period > 0 && EveryPeriod(combined, begin, end, period) && begin % period == 0 && begin <= h.time < end
    requires combined != [] ==>
      var g := GroupStart(h.time, period); g == combined[|combined| - 1].time || g == combined[|combined| - 1].time + period
    ensures var next := AddHour(combined, h, period);
      && EveryPeriod(next, begin, end, period)
      && next != [] && next[|next| - 1].time == GroupStart(h.time, period)
      && |next| >= |combined| && (forall i :: 0 <= i < |combined| ==> next[i].time == combined[i].time)
  {
    hide GroupStart;
    GroupAligned(h.time, period);
    GroupNotBefore(h.time, begin, period);
    GroupBounds(h.time, period);
  }

  lemma {:induction false} CombineTimes(hours: seq<Candle>, startTime: int, endTime: int, n: int, period: int)
    requires period >= HOUR && startTime % period == 0 && EveryHour(hours)
    ensures var combined := Combine(hours, startTime, endTime, n, period);
      && EveryPeriod(combined, startTime, endTime, period)
      && (combined == [] || |combined| <= n)
      && LastTaken(hours, combined, startTime, endTime, n, period)
  {
    hide EveryPeriod, GroupStart, AddHour;
    if hours == [] {
      NoPeriods(startTime, endTime, period);
    } else {
      var init, h := hours[..|hours| - 1], hours[|hours| - 1];
      var combined := Combine(init, startTime, endTime, n, period);
      CombineTimes(init, startTime, endTime, n, period);
      if startTime <= h.time < endTime && |combined| < n {
        if combined != [] {
          assert h.time == hours[|hours| - 2].time + HOUR && init[|init| - 1] == hours[|hours| - 2];
          HourGroups(init[|init| - 1].time, period);
        }
        AddHourTimes(combined, h, startTime, endTime, period);
        AddHourSize(combined, h, period);
      }
    }
  }

  lemma AddHourSize(combined: seq<Candle>, h: Candle, period: int)
    requires period > 0
    ensures |AddHour(combined, h, period)| <= |combined| + 1
  {
  }

  lemma NoPeriods(begin: int, end: int, period: int)
    requires period > 0
    ensures EveryPeriod([], begin, end, period)
  {
  }

  lemma {:induction false} PeriodsRise(cs: seq<Candle>, begin: int, end: int, period: int, i: nat)
    requires period > 0 && EveryPeriod(cs, begin, end, period) && i < |cs|
    ensures cs[i].time >= At(begin, period, i)
  {
    if i > 0 { PeriodsRise(cs, begin, end, period, i - 1); }
  }

  // In a window of n periods no hour is left out: after n groups there is no room for another.
  lemma CombineCovers(hours: seq<Candle>, startTime: int, n: nat, period: int)
    requires period >= HOUR && startTime % period == 0 && EveryHour(hours)
    ensures var endTime := At(startTime, period, n);
      CoversHours(Combine(hours, startTime, endTime, n, period), hours, startTime, endTime, period)
  {
    hide EveryHour, Combine, At;
    var endTime := At(startTime, period, n);
    forall k | 0 <= k < |hours| && startTime <= hours[k].time < endTime
      ensures var combined := Combine(hours, startTime, endTime, n, period);
        exists i :: 0 <= i < |combined| && combined[i].time <= hours[k].time < combined[i].time + period
    {
      var i := HourIn(hours, startTime, endTime, n, period, k);
    }
  }

  lemma {:induction false} HourIn(hours: seq<Candle>, startTime: int, endTime: int, n: nat, period: int, k: nat) returns (i: nat)
    requires period >= HOUR && startTime % period == 0 && EveryHour(hours) && endTime == At(startTime, period, n)
    requires k < |hours| && startTime <= hours[k].time < endTime
    ensures var combined := Combine(hours, startTime, endTime, n, period);
      i < |combined| && combined[i].time <= hours[k].time < combined[i].time + period
  {
    var init, h := hours[..|hours| - 1], hours[|hours| - 1];
    assert hours == init + [h];
    hide Combine, At;
    if k < |init| {
      i := HourIn(init, startTime, endTime, n, period, k);
      StillThere(init, h, startTime, endTime, n, period);
    } else {
      LastCovers(init, h, startTime, endTime, n, period);
      i := |Combine(hours, startTime, endTime, n, period)| - 1;
    }
  }

  lemma {:induction false} StillThere(init: seq<Candle>, h: Candle, startTime: int, endTime: int, n: int, period: int)
    requires period >= HOUR && startTime % period == 0 && EveryHour(init + [h])
    ensures var before, combined := Combine(init, startTime, endTime, n, period), Combine(init + [h], startTime, endTime, n, period);
      |before| <= |combined| && forall i :: 0 <= i < |before| ==> combined[i].time == before[i].time
  {
    hide EveryPeriod, GroupStart, AddHour;
    assert (init + [h])[..|init|] == init;
    var combined := Combine(init, startTime, endTime, n, period);
    CombineTimes(init, startTime, endTime, n, period);
    if startTime <= h.time < endTime && |combined| < n {
      if combined != [] {
        assert h.time == init[|init| - 1].time + HOUR;
        HourGroups(init[|init| - 1].time, period);
      }
      AddHourTimes(combined, h, startTime, endTime, period);
    }
  }

  lemma {:induction false} LastCovers(init: seq<Candle>, h: Candle, startTime: int, endTime: int, n: nat, period: int)
    requires period >= HOUR && startTime % period == 0 && EveryHour(init + [h]) && endTime == At(startTime, period, n)
    requires startTime <= h.time < endTime
    ensures var combined := Combine(init + [h], startTime, endTime, n, period);
      combined != [] && combined[|combined| - 1].time <= h.time < combined[|combined| - 1].time + period
  {
    hide EveryPeriod, GroupStart, AddHour;
    assert (init + [h])[..|init|] == init;
    var before := Combine(init, startTime, endTime, n, period);
    CombineTimes(init, startTime, endTime, n, period);
    GroupBounds(h.time, period);
    if |before| < n {
      if before != [] {
        assert h.time == init[|init| - 1].time + HOUR;
        HourGroups(init[|init| - 1].time, period);
      }
      AddHourTimes(before, h, startTime, endTime, period);
    } else {
      PeriodsRise(before, startTime, endTime, period, n - 1);
      LastNotAfter(init, startTime, endTime, n, period);
    }
  }

  // The last group begins no later than the last hour.
  lemma {:induction false} LastNotAfter(hours: seq<Candle>, startTime: int, endTime: int, n: int, period: int)
    requires period >= HOUR && EveryHour(hours)
    ensures var combined := Combine(hours, startTime, endTime, n, period);
      combined != [] ==> hours != [] && combined[|combined| - 1].time <= hours[|hours| - 1].time
  {
    hide GroupStart;
    if hours != [] {
      var h := hours[|hours| - 1];
      LastNotAfter(hours[..|hours| - 1], startTime, endTime, n, period);
      GroupBounds(h.time, period);
    }
  }

  // ---------------------------------------------------------------------------------------------
  // The loop

  // The body of the loop for one candle and the combined candle it belongs to.
  method AbsorbCandle(c: Candle, candle: Candle, period: int) returns (combCandle: Candle)
    requires period > 0
    ensures combCandle == Absorb(c, candle, period)
  {
    combCandle := c;
    if combCandle.time == 0 {
      combCandle := combCandle.(time := candle.time - candle.time % period, period := period,
        priceOpen := candle.priceOpen, minPrice := candle.minPrice, maxPrice := candle.maxPrice, feeRateOpen := candle.feeRateOpen);
    }
    combCandle := combCandle.(priceClose := candle.priceClose,
      volumeBase := combCandle.volumeBase + candle.volumeBase, volumeQuote := combCandle.volumeQuote + candle.volumeQuote,
      tvlBase := candle.tvlBase, tvlQuote := candle.tvlQuote, feeRateClose := candle.feeRateClose);
    if combCandle.maxPrice < candle.maxPrice {
      combCandle := combCandle.(maxPrice := candle.maxPrice);
    }
    if combCandle.minPrice > candle.minPrice {
      combCandle := combCandle.(minPrice := candle.minPrice);
    }
  }

  // Groups candles that follow each other hour by hour; a gap would make the original index
  // outside its list.
  method CombineHourlyCandles(candles: seq<Candle>, hours: int, startTime: int, endTime: int,
          n: int) returns (combined: seq<Candle>)
    requires hours > 0 && EveryHour(candles)
    ensures combined == Combine(candles, startTime, endTime, n, hours * HOUR)
  {
    hide Absorb, AddHour, Combine, EveryHour, GroupStart;
    combined := [];
    var period := hours * HOUR;
    var startGroup := -1;
    var i := 0;
    NothingCombined(candles, startTime, endTime, n, period);
    while i < |candles|
      invariant 0 <= i <= |candles|
      invariant combined == Combine(candles[..i], startTime, endTime, n, period)
      invariant if combined == [] then startGroup == -1 else
        && i > 0 && startTime <= candles[i - 1].time && startGroup >= 0
        && combined[|combined| - 1].time == GroupStart(candles[i - 1].time, period)
        && candles[i - 1].time / period == startGroup + |combined| - 1
    {
      var candle := candles[i];
      EveryHourPrefix(candles, i + 1);
      CombineNext(candles, i, startTime, endTime, n, period);
      if candle.time < startTime {
        i := i + 1;
        continue;
      }
      if candle.time >= endTime || |combined| >= n {
        break;
      }
      GroupIndex(candle.time, period);
      if i > 0 { HourGroups(candles[i - 1].time, period); }
      if startGroup == -1 {
        startGroup := (candle.time - candle.time % period) / period;
      }
      var ci := (candle.time - candle.time % period) / period - startGroup;
      AddHourAt(combined, candle, period, ci);
      if ci >= |combined| {
        combined := combined + [NO_CANDLE];
      }
      var combCandle := AbsorbCandle(combined[ci], candle, period);
      combined := combined[ci := combCandle];
      i := i + 1;
    }
    CombineStops(candles, i, startTime, endTime, n, period);
  }

  lemma {:induction false} NothingCombined(candles: seq<Candle>, startTime: int, endTime: int, n: int, period: int)
    requires period > 0
    ensures Combine(candles[..0], startTime, endTime, n, period) == []
  {
  }

  lemma {:induction false} CombineNext(candles: seq<Candle>, i: nat, startTime: int, endTime: int, n: int, period: int)
    requires period > 0 && i < |candles|
    ensures var combined, h := Combine(candles[..i], startTime, endTime, n, period), candles[i];
      Combine(candles[..i + 1], startTime, endTime, n, period) ==
        if h.time < startTime || h.time >= endTime || |combined| >= n then combined else AddHour(combined, h, period)
  {
    hide AddHour;
    assert candles[..i + 1][..i] == candles[..i];
  }

  // An hour goes into the last group or opens the next, and either way its group is then the last.
  lemma AddHourAt(combined: seq<Candle>, h: Candle, period: int, ci: int)
    requires period > 0
    requires || (ci == |combined| - 1 >= 0 && combined[ci].time == GroupStart(h.time, period))
             || (ci == |combined| && (combined != [] ==> combined[ci - 1].time != GroupStart(h.time, period)))
    ensures var slots := if ci == |combined| then combined + [NO_CANDLE] else combined;
      && AddHour(combined, h, period) == slots[ci := Absorb(slots[ci], h, period)]
      && Absorb(slots[ci], h, period).time == GroupStart(h.time, period)
  {
    hide GroupStart;
  }

  lemma GroupIndex(t: int, period: int)
    requires period > 0
    ensures t - t % period == GroupStart(t, period) && GroupStart(t, period) / period == t / period
    ensures t >= 0 ==> t / period >= 0
  {
    GroupBounds(t, period);
    GroupIdempotent(t, period);
    GroupUnique(t, GroupStart(t, period), period);
  }
}
