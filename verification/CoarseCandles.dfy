// Regrouped hourly candles are the coarse candles of the same states.
module CoarseCandles {
  import opened TradingHistory
  import opened Candles
  import opened HourlyCandles

  // ---------------------------------------------------------------------------------------------
  // Two adjoining intervals

  lemma {:induction false} WindowIsSlice(s: seq<AccumPoolStats>, lo: int, hi: int)
    requires NotEarlier(s) && lo <= hi
    ensures Before(s, lo) <= Before(s, hi)
    ensures Window(s, lo, hi) == s[Before(s, lo)..Before(s, hi)]
  {
    if s != [] {
      hide Before, NotEarlier;
      var init, x := s[..|s| - 1], s[|s| - 1];
      assert s == init + [x];
      InitNotEarlier(s);
      WindowIsSlice(init, lo, hi);
      BeforeOfLast(s, lo);
      BeforeOfLast(s, hi);
      var i, j := Before(init, lo), Before(init, hi);
      if x.latestTime >= hi {
        assert s[i..j] == init[i..j];
      } else if x.latestTime >= lo {
        assert s[i..|s|] == init[i..j] + [x];
      }
    }
  }

  lemma {:induction false} InitNotEarlier(s: seq<AccumPoolStats>)
    requires NotEarlier(s) && s != []
    ensures NotEarlier(s[..|s| - 1])
  {
  }

  lemma BeforeOfLast(s: seq<AccumPoolStats>, t: int)
    requires NotEarlier(s) && s != []
    ensures var init, x := s[..|s| - 1], s[|s| - 1];
      if x.latestTime >= t then Before(s, t) == Before(init, t)
      else Before(s, t) == |s| && Before(init, t) == |init|
  {
    hide Before, NotEarlier;
    var init, x := s[..|s| - 1], s[|s| - 1];
    assert s == init + [x];
    if x.latestTime >= t {
      BeforeAppend(init, x, t);
    } else {
      BeforeIsSplit(s, t, |s|);
      NoneAfter(init, x, t);
    }
  }

  lemma {:induction false} NoneAfter(init: seq<AccumPoolStats>, x: AccumPoolStats, t: int)
    requires NotEarlier(init + [x]) && x.latestTime < t
    ensures Before(init, t) == |init|
  {
    hide Before;
    var s := init + [x];
    assert s[..|init|] == init;
    if init != [] {
      assert s[|init| - 1] == init[|init| - 1];
    }
    hide NotEarlier;
    BeforeIsSplit(init, t, |init|);
  }

  // The state an interval opens in is the one the interval before it closes in.
  lemma {:induction false} Adjoining(open: AccumPoolStats, s: seq<AccumPoolStats>, a: int, b: int, c: int)
    requires NotEarlier(s) && a <= b <= c
    ensures Window(s, a, c) == Window(s, a, b) + Window(s, b, c)
    ensures LastBefore(open, s, b) == LastOf(LastBefore(open, s, a), Window(s, a, b))
  {
    hide Window, Before, NotEarlier;
    WindowIsSlice(s, a, b);
    WindowIsSlice(s, b, c);
    WindowIsSlice(s, a, c);
    var i, j := Before(s, a), Before(s, b);
    if i < j {
      assert s[i..j][j - i - 1] == s[..j][j - 1];
    }
  }

  lemma {:induction false} Extremes(o: AccumPoolStats, A: seq<AccumPoolStats>, B: seq<AccumPoolStats>)
    ensures var low, more := Lowest(o, A), Lowest(LastOf(o, A), B); Lowest(o, A + B) == if low > more then more else low
    ensures var high, more := Highest(o, A), Highest(LastOf(o, A), B); Highest(o, A + B) == if high < more then more else high
  {
    if B == [] {
      assert A + B == A;
    } else {
      var rest := B[..|B| - 1];
      assert (A + B)[..|A + B| - 1] == A + rest;
      Extremes(o, A, rest);
    }
  }

  // The candle of an interval, absorbing the candle of the next one, is the candle of both.
  lemma AbsorbNext(o: AccumPoolStats, A: seq<AccumPoolStats>, B: seq<AccumPoolStats>,
                                      from: int, T: int, t: int, period: int, hour: int)
    requires T != 0 && period > 0
    ensures Absorb(CandleOf(o, A, from, period).(time := T), CandleOf(LastOf(o, A), B, t, hour), period)
      == CandleOf(o, A + B, from, period).(time := T)
  {
    Extremes(o, A, B);
    if B == [] { assert A + B == A; }
  }

  lemma {:induction false} AbsorbHour(o: AccumPoolStats, s: seq<AccumPoolStats>, a: int, b: int, c: int, T: int,
          period: int)
    requires NotEarlier(s) && a <= b <= c && T != 0 && period > 0
    ensures Absorb(CandleOver(o, s, a, b, period).(time := T), CandleOver(o, s, b, c, HOUR), period)
      == CandleOver(o, s, a, c, period).(time := T)
  {
    Adjoining(o, s, a, b, c);
    AbsorbNext(LastBefore(o, s, a), Window(s, a, b), Window(s, b, c), a, T, b, period, HOUR);
  }

  lemma AbsorbFirst(o: AccumPoolStats, s: seq<AccumPoolStats>, b: int, c: int, period: int)
    requires period > 0
    ensures Absorb(NO_CANDLE, CandleOver(o, s, b, c, HOUR), period)
      == CandleOver(o, s, b, c, period).(time := GroupStart(b, period))
  {
    hide Lowest, Highest, Window, LastBefore;
  }

  // ---------------------------------------------------------------------------------------------
  // The reference: [from, to) cut at the group boundaries, one candle a piece

  function Coarse(open: AccumPoolStats, s: seq<AccumPoolStats>, from: int, to: int, period: int): seq<Candle>
    requires period > 0
    decreases if from < to then to - from else 0
  {
    if to <= from then []
    else
      var T := GroupStart(to - 1, period);
      if T <= from then [CandleOver(open, s, from, to, period).(time := T)]
      else
        Coarse(open, s, from, T, period) + [CandleOver(open, s, T, to, period).(time := T)]
  }

  // Candle i of those a builder closes, and what it closes from its dth candle on.
  lemma {:induction false} ClosedAt(open: AccumPoolStats, s: seq<AccumPoolStats>, start: int, period: int, k: nat, i: nat)
    requires i < k
    ensures var from := At(start, period, i); Closed(open, s, start, period, k)[i] == CandleOver(open, s, from, from + period, period)
  {
    hide CandleOver;
    if i < k - 1 { ClosedAt(open, s, start, period, k - 1, i); }
  }

  lemma {:induction false} ClosedSuffix(open: AccumPoolStats, s: seq<AccumPoolStats>, start: int, period: int, k: nat, d: nat)
    requires d <= k
    ensures Closed(open, s, start, period, k)[d..] == Closed(open, s, At(start, period, d), period, k - d)
  {
    hide CandleOver;
    if d < k {
      var cs, from := Closed(open, s, start, period, k), At(start, period, k - 1);
      ClosedSuffix(open, s, start, period, k - 1, d);
      AtAfter(start, period, d, k - 1 - d);
      assert cs[d..] == Closed(open, s, start, period, k - 1)[d..] + [CandleOver(open, s, from, from + period, period)];
    }
  }

  lemma {:induction false} AtAfter(start: int, period: int, d: nat, j: nat)
    ensures At(At(start, period, d), period, j) == At(start, period, d + j)
  {
    if j > 0 { AtAfter(start, period, d, j - 1); }
  }

  predicate OnTheHour(t: int) {
    t % HOUR == 0
  }

  lemma GroupOnTheHour(t: int, hours: int)
    requires hours > 0
    ensures OnTheHour(GroupStart(t, hours * HOUR))
  {
    var a := t / (hours * HOUR);
    GroupBounds(t, hours * HOUR);
    assert GroupStart(t, hours * HOUR) == a * (hours * HOUR) == (a * hours) * HOUR;
    Multiple(a * hours);
  }

  lemma Multiple(k: int)
    ensures (k * HOUR) % HOUR == 0
  {
  }

  // One more hour: it goes into the last group or opens the next.
  lemma CoarseHour(open: AccumPoolStats, s: seq<AccumPoolStats>, from: int, to: int, hours: int)
    requires NotEarlier(s) && hours > 0 && from <= to && OnTheHour(from) && OnTheHour(to)
    requires GroupStart(from, hours * HOUR) > 0
    ensures AddHour(Coarse(open, s, from, to, hours * HOUR), CandleOver(open, s, to, to + HOUR, HOUR), hours * HOUR)
      == Coarse(open, s, from, to + HOUR, hours * HOUR)
  {
    hide CandleOver, Absorb, GroupStart, NotEarlier, AddHour, OnTheHour;
    var period := hours * HOUR;
    var g, h := GroupStart(to, period), CandleOver(open, s, to, to + HOUR, HOUR);
    HourTime(open, s, to);
    HourInGroup(to, hours);
    AbsorbFirst(open, s, to, to + HOUR, period);
    if from == to {
      AddToNew([], h, period);
    } else {
      GroupMonotone(from, to - 1, period);
      GroupBounds(to - 1, period);
      if g < to {
        GroupIdempotent(to, period);
        GroupUnique(to - 1, g, period);
        var first := if g <= from then from else g;
        AbsorbHour(open, s, first, to, to + HOUR, g, period);
        AddToSame(if g <= from then [] else Coarse(open, s, from, g, period), CandleOver(open, s, first, to, period).(time := g), h, period);
      } else {
        AddToNew(Coarse(open, s, from, to, period), h, period);
      }
    }
  }

  lemma HourInGroup(t: int, hours: int)
    requires hours > 0 && OnTheHour(t)
    ensures GroupStart(t + HOUR - 1, hours * HOUR) == GroupStart(t, hours * HOUR) <= t
  {
    hide GroupStart;
    var period := hours * HOUR;
    GroupOnTheHour(t, hours);
    GroupBounds(t, period);
    GroupIdempotent(t, period);
    assert GroupStart(t, period) + period >= t + HOUR;
    GroupUnique(t + HOUR - 1, GroupStart(t, period), period);
  }

  lemma AddToSame(cs: seq<Candle>, c: Candle, h: Candle, period: int)
    requires period > 0 && c.time == GroupStart(h.time, period)
    ensures AddHour(cs + [c], h, period) == cs + [Absorb(c, h, period)]
    ensures [] + [c] == [c] && [] + [Absorb(c, h, period)] == [Absorb(c, h, period)]
  {
    hide Absorb, GroupStart;
    assert (cs + [c])[|cs| := Absorb(c, h, period)] == cs + [Absorb(c, h, period)];
  }

  lemma AddToNew(cs: seq<Candle>, h: Candle, period: int)
    requires period > 0 && (cs != [] ==> cs[|cs| - 1].time != GroupStart(h.time, period))
    ensures AddHour(cs, h, period) == cs + [Absorb(NO_CANDLE, h, period)]
  {
  }

  lemma HourTime(open: AccumPoolStats, s: seq<AccumPoolStats>, t: int)
    ensures CandleOver(open, s, t, t + HOUR, HOUR).time == t
  {
  }

  lemma GroupMonotone(a: int, b: int, period: int)
    requires period > 0 && a <= b
    ensures GroupStart(a, period) <= GroupStart(b, period)
  {
    GroupBounds(a, period);
    GroupBounds(b, period);
    GroupIdempotent(b, period);
    if GroupStart(b, period) < GroupStart(a, period) {
      GroupUnique(a, GroupStart(b, period), period);
    }
  }

  // ---------------------------------------------------------------------------------------------
  // Regrouping

  function MaxOf(a: int, b: int): int {
    if a < b then b else a
  }

  function MinOf(a: int, b: int): int {
    if a < b then a else b
  }

  // Where the nth group has its first hour: combining stops there.
  function CutOff(from: int, n: int, period: int): int
    requires period > 0
  {
    if n <= 0 then from
    else if n == 1 then from + HOUR
    else At(GroupStart(from, period), period, n - 1) + HOUR
  }

  lemma {:induction false} CoarseSize(open: AccumPoolStats, s: seq<AccumPoolStats>, from: int, to: int, period: int)
    requires period > 0
    ensures to <= from ==> Coarse(open, s, from, to, period) == []
    ensures from < to ==>
      |Coarse(open, s, from, to, period)| > 0 &&
      GroupStart(to - 1, period) == At(GroupStart(from, period), period, |Coarse(open, s, from, to, period)| - 1)
    decreases if from < to then to - from else 0
  {
    hide CandleOver, GroupStart;
    if from < to {
      var T := GroupStart(to - 1, period);
      GroupIdempotent(to - 1, period);
      if T <= from {
        GroupUnique(from, T, period);
      } else {
        CoarseSize(open, s, from, T, period);
        GroupBefore(T, period);
      }
    }
  }

  lemma GroupBefore(g: int, period: int)
    requires period > 0 && g == GroupStart(g, period)
    ensures GroupStart(g - 1, period) == g - period
  {
    var h := GroupStart(g - 1, period);
    GroupIdempotent(g - 1, period);
    GroupNext(h, period);
    if h + period < g {
      GroupUnique(g - 1, h + period, period);
    }
    if h + period > g {
      GroupUnique(g, h, period);
    }
  }

  lemma {:induction false} AtRises(start: int, period: int, i: nat, j: nat)
    requires period > 0 && i < j
    ensures At(start, period, i) + period <= At(start, period, j)
  {
    if i + 1 < j { AtRises(start, period, i, j - 1); }
  }

  lemma {:induction false} AtGroups(g: int, period: int, k: nat)
    requires period > 0 && g == GroupStart(g, period)
    ensures At(g, period, k) == GroupStart(At(g, period, k), period)
  {
    if k > 0 {
      AtGroups(g, period, k - 1);
      GroupNext(At(g, period, k - 1), period);
    }
  }

  lemma {:induction false} AtOnTheHour(g: int, hours: int, k: nat)
    requires hours > 0 && OnTheHour(g)
    ensures OnTheHour(At(g, hours * HOUR, k))
  {
    if k > 0 { AtOnTheHour(g, hours, k - 1); }
  }

  lemma NextHour(a: int, b: int)
    requires OnTheHour(a) && OnTheHour(b) && a < b
    ensures a + HOUR <= b
  {
  }

  // There are n groups exactly from the cut-off on.
  lemma {:induction false} CutOffCounts(open: AccumPoolStats, s: seq<AccumPoolStats>, from: int, to: int, n: int,
          hours: int)
    requires hours > 0 && from <= to && OnTheHour(from) && OnTheHour(to)
    ensures |Coarse(open, s, from, to, hours * HOUR)| >= n <==> to >= CutOff(from, n, hours * HOUR)
  {
    hide Coarse, GroupStart, At;
    var period := hours * HOUR;
    var g := GroupStart(from, period);
    CoarseSize(open, s, from, to, period);
    GroupIdempotent(from, period);
    if n > 1 {
      var size := |Coarse(open, s, from, to, period)|;
      var B := At(g, period, n - 1);
      AtRises(g, period, 0, n - 1);
      AtGroups(g, period, n - 1);
      GroupOnTheHour(from, hours);
      AtOnTheHour(g, hours, n - 1);
      if from < to {
        if size >= n {
          if size > n { AtRises(g, period, n - 1, size - 1); }
          GroupBounds(to - 1, period);
          NextHour(B, to);
        } else {
          AtRises(g, period, size - 1, n - 1);
          GroupBounds(to - 1, period);
        }
      } else {
        AtNotBefore(g, period, 0);
        GroupBounds(from, period);
      }
    }
  }

  // The main result. Of the hourly candles of a pool, combining takes those from startTime on
  // (or from the first) up to endTime, the last, or the first hour of the nth group, and what it
  // returns are the coarse candles of that stretch of time.
  function TakenTo(t0: int, m: nat, startTime: int, endTime: int, n: int, period: int): int
    requires period > 0
  {
    var from := MaxOf(t0, startTime);
    MaxOf(from, MinOf(At(t0, HOUR, m), MinOf(endTime, CutOff(from, n, period))))
  }

  lemma {:induction false} CombinedIsCoarse(open: AccumPoolStats, s: seq<AccumPoolStats>, t0: int, m: nat,
                                            startTime: int, endTime: int, n: int, hours: int)
    requires NotEarlier(s) && hours > 0 && OnTheHour(t0) && OnTheHour(startTime) && OnTheHour(endTime)
    requires GroupStart(MaxOf(t0, startTime), hours * HOUR) > 0
    ensures Combine(Closed(open, s, t0, HOUR, m), startTime, endTime, n, hours * HOUR)
      == Coarse(open, s, MaxOf(t0, startTime), TakenTo(t0, m, startTime, endTime, n, hours * HOUR), hours * HOUR)
  {
    hide *;
    var period := hours * HOUR;
    var from, cut := MaxOf(t0, startTime), CutOff(MaxOf(t0, startTime), n, period);
    FromOnTheHour(t0, startTime);
    if m == 0 {
      TakesNothing(t0, startTime, endTime, n, hours);
      CoarseSize(open, s, from, from, period);
      CombineNothing(open, s, t0, startTime, endTime, n, period);
    } else {
      CombinedIsCoarse(open, s, t0, m - 1, startTime, endTime, n, hours);
      var t, to := At(t0, HOUR, m - 1), TakenTo(t0, m - 1, startTime, endTime, n, period);
      TakesHour(t0, m, startTime, endTime, n, hours);
      CutOffCounts(open, s, from, to, n, hours);
      CombineHour(open, s, t0, m, startTime, endTime, n, period);
      if startTime <= t < endTime && to < cut {
        CoarseHour(open, s, from, t, hours);
      }
    }
  }

  // The same of the hours a builder returns, which begin with the first liquid one.
  lemma {:induction false} KeptCombinedIsCoarse(open: AccumPoolStats, s: seq<AccumPoolStats>, t0: int, m: nat,
          startTime: int, endTime: int, n: int, hours: int)
    requires NotEarlier(s) && hours > 0 && OnTheHour(t0) && OnTheHour(startTime) && OnTheHour(endTime)
    requires GroupStart(MaxOf(At(t0, HOUR, Dropped(Closed(open, s, t0, HOUR, m))), startTime), hours * HOUR) > 0
    ensures var d := Dropped(Closed(open, s, t0, HOUR, m));
      var first := At(t0, HOUR, d);
      Combine(Kept(Closed(open, s, t0, HOUR, m)), startTime, endTime, n, hours * HOUR)
      == Coarse(open, s, MaxOf(first, startTime), TakenTo(first, m - d, startTime, endTime, n, hours * HOUR), hours * HOUR)
  {
    hide *;
    var H := Closed(open, s, t0, HOUR, m);
    var d := Dropped(H);
    KeptIs(H);
    ClosedSuffix(open, s, t0, HOUR, m, d);
    AtOnTheHour(t0, 1, d);
    OneHour();
    CombinedIsCoarse(open, s, At(t0, HOUR, d), m - d, startTime, endTime, n, hours);
  }

  lemma OneHour()
    ensures 1 * HOUR == HOUR
  {
  }

  lemma {:induction false} KeptIs(cs: seq<Candle>)
    ensures Kept(cs) == cs[Dropped(cs)..]
  {
  }

  lemma FromOnTheHour(t0: int, startTime: int)
    requires OnTheHour(t0) && OnTheHour(startTime)
    ensures OnTheHour(MaxOf(t0, startTime))
  {
  }

  lemma {:induction false} CombineNothing(open: AccumPoolStats, s: seq<AccumPoolStats>, t0: int,
                                          startTime: int, endTime: int, n: int, period: int)
    requires period > 0
    ensures Combine(Closed(open, s, t0, HOUR, 0), startTime, endTime, n, period) == []
  {
  }

  lemma CombineHour(open: AccumPoolStats, s: seq<AccumPoolStats>, t0: int, m: nat,
                                       startTime: int, endTime: int, n: int, period: int)
    requires period > 0 && m > 0
    ensures var t, combined := At(t0, HOUR, m - 1), Combine(Closed(open, s, t0, HOUR, m - 1), startTime, endTime, n, period);
      Combine(Closed(open, s, t0, HOUR, m), startTime, endTime, n, period) ==
        if startTime <= t < endTime && |combined| < n then AddHour(combined, CandleOver(open, s, t, t + HOUR, HOUR), period)
        else combined
  {
    hide CandleOver, AddHour;
    var t, cs := At(t0, HOUR, m - 1), Closed(open, s, t0, HOUR, m);
    assert cs[..m - 1] == Closed(open, s, t0, HOUR, m - 1);
    assert cs[m - 1] == CandleOver(open, s, t, t + HOUR, HOUR);
    HourTime(open, s, t);
  }

  lemma TakesNothing(t0: int, startTime: int, endTime: int, n: int, hours: int)
    requires hours > 0 && OnTheHour(t0) && OnTheHour(startTime)
    ensures TakenTo(t0, 0, startTime, endTime, n, hours * HOUR) == MaxOf(t0, startTime)
  {
    hide CutOff;
  }

  // How far one more hour moves the end of what is taken.
  lemma TakesHour(t0: int, m: nat, startTime: int, endTime: int, n: int, hours: int)
    requires hours > 0 && m > 0 && OnTheHour(t0) && OnTheHour(startTime) && OnTheHour(endTime)
    ensures var period, t := hours * HOUR, At(t0, HOUR, m - 1);
      var from, to := MaxOf(t0, startTime), TakenTo(t0, m - 1, startTime, endTime, n, period);
      && OnTheHour(to) && from <= to
      && if startTime <= t < endTime && to < CutOff(from, n, period)
         then to == t && TakenTo(t0, m, startTime, endTime, n, period) == t + HOUR
         else TakenTo(t0, m, startTime, endTime, n, period) == to
  {
    hide CutOff, OnTheHour;
    var t, from := At(t0, HOUR, m - 1), MaxOf(t0, startTime);
    var cut := CutOff(from, n, hours * HOUR);
    CutOffAfter(from, n, hours);
    AtOnTheHour(t0, 1, m - 1);
    AtNotBefore(t0, HOUR, m - 1);
    if t < endTime { NextHour(t, endTime); }
    if t < cut { NextHour(t, cut); }
    if t < from { NextHour(t, from); }
  }

  lemma {:induction false} AtNotBefore(start: int, period: int, k: nat)
    requires period > 0
    ensures start <= At(start, period, k)
  {
    if k > 0 { AtRises(start, period, 0, k); }
  }

  lemma CutOffAfter(from: int, n: int, hours: int)
    requires hours > 0 && OnTheHour(from)
    ensures OnTheHour(CutOff(from, n, hours * HOUR))
    ensures if n <= 0 then CutOff(from, n, hours * HOUR) == from else CutOff(from, n, hours * HOUR) >= from + HOUR
  {
    hide GroupStart;
    var period := hours * HOUR;
    var g := GroupStart(from, period);
    GroupOnTheHour(from, hours);
    if n > 1 {
      AtRises(g, period, 0, n - 1);
      AtOnTheHour(g, hours, n - 1);
      AlignedBefore(from, At(g, period, n - 1));
    }
  }

  lemma AlignedBefore(a: int, b: int)
    requires OnTheHour(a) && OnTheHour(b) && a < b
    ensures a + HOUR <= b
  {
  }

  // ---------------------------------------------------------------------------------------------
  // What the coarse candles are

  // Candle i covers its group, cut to the stretch of time.
  lemma {:induction false} CoarseAt(open: AccumPoolStats, s: seq<AccumPoolStats>, from: int, to: int, period: int, i: nat)
    requires period > 0 && i < |Coarse(open, s, from, to, period)|
    ensures var T := At(GroupStart(from, period), period, i);
      && T < to
      && Coarse(open, s, from, to, period)[i]
        == CandleOver(open, s, MaxOf(T, from), MinOf(T + period, to), period).(time := T)
    decreases if from < to then to - from else 0
  {
    hide CandleOver, GroupStart;
    CoarseSize(open, s, from, to, period);
    var T := GroupStart(to - 1, period);
    GroupIdempotent(from, period);
    if T > from {
      if i < |Coarse(open, s, from, to, period)| - 1 {
        CoarseAt(open, s, from, T, period, i);
        AtRises(GroupStart(from, period), period, i, |Coarse(open, s, from, to, period)| - 1);
      }
    }
  }

  // Whole groups are what a builder of that period closes.
  lemma {:induction false} WholeGroups(open: AccumPoolStats, s: seq<AccumPoolStats>, from: int, period: int, k: nat)
    requires period > 0 && from == GroupStart(from, period)
    ensures Coarse(open, s, from, At(from, period, k), period) == Closed(open, s, from, period, k)
  {
    hide CandleOver, GroupStart;
    if k > 0 {
      var T := At(from, period, k - 1);
      WholeGroups(open, s, from, period, k - 1);
      AtGroups(from, period, k - 1);
      GroupUnique(T + period - 1, T, period);
      AtNotBefore(from, period, k - 1);
      CandleTime(open, s, T, T + period, period);
      if k == 1 { CoarseSize(open, s, from, from, period); }
    }
  }

  lemma CandleTime(open: AccumPoolStats, s: seq<AccumPoolStats>, from: int, to: int, period: int)
    ensures CandleOver(open, s, from, to, period).time == from
  {
  }

  // Regrouping k whole groups, of the n asked for, is building their candles directly. It needs
  // k < n: of the nth group only the first hour is taken, which is all of it only when a group
  // is an hour.
  lemma {:induction false} RegroupingIsDirect(open: AccumPoolStats, s: seq<AccumPoolStats>, t0: int, m: nat,
                                              startTime: int, k: nat, n: int, hours: int)
    requires NotEarlier(s) && hours > 0 && OnTheHour(t0) && t0 <= startTime
    requires startTime == GroupStart(startTime, hours * HOUR) > 0
    requires At(startTime, hours * HOUR, k) <= At(t0, HOUR, m)
    requires k < n || (k == n && hours == 1)
    ensures Combine(Closed(open, s, t0, HOUR, m), startTime, At(startTime, hours * HOUR, k), n, hours * HOUR)
      == Closed(open, s, startTime, hours * HOUR, k)
  {
    hide Coarse, GroupStart, CandleOver, Combine;
    var period := hours * HOUR;
    var endTime := At(startTime, period, k);
    GroupOnTheHour(startTime, hours);
    AtOnTheHour(startTime, hours, k);
    CombinedIsCoarse(open, s, t0, m, startTime, endTime, n, hours);
    AtNotBefore(startTime, period, k);
    if k < n && n > 1 {
      if k < n - 1 { AtRises(startTime, period, k, n - 1); }
    }
    assert TakenTo(t0, m, startTime, endTime, n, period) == endTime;
    WholeGroups(open, s, startTime, period, k);
  }

  // The nth group, when there is one, shows its first hour only.
  lemma {:induction false} LastGroupIsItsFirstHour(open: AccumPoolStats, s: seq<AccumPoolStats>, t0: int, m: nat,
                                                   startTime: int, endTime: int, n: int, hours: int)
    requires NotEarlier(s) && hours > 0 && n > 0 && OnTheHour(t0) && t0 <= startTime && OnTheHour(endTime)
    requires startTime == GroupStart(startTime, hours * HOUR) > 0
    requires At(startTime, hours * HOUR, n - 1) < endTime && At(startTime, hours * HOUR, n - 1) < At(t0, HOUR, m)
    ensures var T := At(startTime, hours * HOUR, n - 1);
      Combine(Closed(open, s, t0, HOUR, m), startTime, endTime, n, hours * HOUR)
      == Closed(open, s, startTime, hours * HOUR, n - 1) + [CandleOver(open, s, T, T + HOUR, hours * HOUR)]
  {
    hide Coarse, GroupStart, CandleOver, Combine;
    var period := hours * HOUR;
    var T := At(startTime, period, n - 1);
    GroupOnTheHour(startTime, hours);
    AtOnTheHour(startTime, hours, n - 1);
    AtOnTheHour(t0, 1, m);
    CombinedIsCoarse(open, s, t0, m, startTime, endTime, n, hours);
    AtNotBefore(startTime, period, n - 1);
    AlignedBefore(T, MinOf(endTime, At(t0, HOUR, m)));
    assert TakenTo(t0, m, startTime, endTime, n, period) == T + HOUR;
    FirstHourOfGroup(open, s, startTime, n - 1, hours);
  }

  lemma {:induction false} FirstHourOfGroup(open: AccumPoolStats, s: seq<AccumPoolStats>, from: int, k: nat, hours: int)
    requires hours > 0 && from == GroupStart(from, hours * HOUR)
    ensures var T := At(from, hours * HOUR, k);
      Coarse(open, s, from, T + HOUR, hours * HOUR)
      == Closed(open, s, from, hours * HOUR, k) + [CandleOver(open, s, T, T + HOUR, hours * HOUR)]
  {
    hide CandleOver, GroupStart;
    var period := hours * HOUR;
    var T := At(from, period, k);
    WholeGroups(open, s, from, period, k);
    AtGroups(from, period, k);
    GroupUnique(T + HOUR - 1, T, period);
    AtNotBefore(from, period, k);
    CandleTime(open, s, T, T + HOUR, period);
    if k > 0 { AtRises(from, period, 0, k); }
  }

  // What comes after an interval [T, u) leaves the candle of [T, v) as it was.
  predicate LeavesCandle(open: AccumPoolStats, s: seq<AccumPoolStats>, T: int, u: int, v: int) {
    var o, A, B := LastBefore(open, s, T), Window(s, T, u), Window(s, u, v);
    var p := LastOf(o, A);
    var q := LastOf(p, B);
    && q.lastPriceSwap == p.lastPriceSwap && q.feeRate == p.feeRate
    && q.baseVolume == p.baseVolume && q.quoteVolume == p.quoteVolume && q.baseTvl == p.baseTvl && q.quoteTvl == p.quoteTvl
    && Lowest(o, A) <= Lowest(p, B) && Highest(o, A) >= Highest(p, B)
  }

  lemma {:induction false} LongerCandle(open: AccumPoolStats, s: seq<AccumPoolStats>, T: int, u: int, v: int, period: int)
    requires NotEarlier(s) && T <= u <= v
    ensures CandleOver(open, s, T, u, period) == CandleOver(open, s, T, v, period) <==> LeavesCandle(open, s, T, u, v)
  {
    hide Window, LastBefore, NotEarlier, Lowest, Highest;
    var o, A, B := LastBefore(open, s, T), Window(s, T, u), Window(s, u, v);
    Adjoining(open, s, T, u, v);
    Extremes(o, A, B);
    if B == [] { assert A + B == A; }
  }

  // So n whole groups are right if and only if what comes after the first hour of the nth leaves
  // its candle as it was.
  lemma NthGroupIsWholeExactly(open: AccumPoolStats, s: seq<AccumPoolStats>, t0: int, m: nat,
          startTime: int, n: int, hours: int)
    requires NotEarlier(s) && hours > 0 && n > 0 && OnTheHour(t0) && t0 <= startTime
    requires startTime == GroupStart(startTime, hours * HOUR) > 0
    requires At(startTime, hours * HOUR, n) <= At(t0, HOUR, m)
    ensures var T := At(startTime, hours * HOUR, n - 1);
      Combine(Closed(open, s, t0, HOUR, m), startTime, At(startTime, hours * HOUR, n), n, hours * HOUR)
        == Closed(open, s, startTime, hours * HOUR, n) <==>
        LeavesCandle(open, s, T, T + HOUR, T + hours * HOUR)
  {
    hide CandleOver, GroupStart, Combine, LeavesCandle, NotEarlier;
    var period := hours * HOUR;
    var T, endTime := At(startTime, period, n - 1), At(startTime, period, n);
    GroupOnTheHour(startTime, hours);
    AtOnTheHour(startTime, hours, n);
    LastGroupIsItsFirstHour(open, s, t0, m, startTime, endTime, n, hours);
    LongerCandle(open, s, T, T + HOUR, T + period, period);
    SameLast(Closed(open, s, startTime, period, n - 1), CandleOver(open, s, T, T + HOUR, period), CandleOver(open, s, T, T + period, period));
  }

  lemma SameLast(cs: seq<Candle>, c: Candle, d: Candle)
    ensures cs + [c] == cs + [d] <==> c == d
  {
    assert (cs + [c])[|cs|] == c && (cs + [d])[|cs|] == d;
  }

  // It does not, whatever n, when the pool has another price in the second hour of two or more.
  lemma NthGroupDiffers(open: AccumPoolStats, x: AccumPoolStats, y: AccumPoolStats, t0: int, m: nat,
          startTime: int, n: int, hours: int)
    requires hours >= 2 && n > 0 && OnTheHour(t0) && t0 <= startTime == GroupStart(startTime, hours * HOUR) && startTime > 0
    requires At(startTime, hours * HOUR, n) <= At(t0, HOUR, m)
    requires var T := At(startTime, hours * HOUR, n - 1);
      T <= x.latestTime < T + HOUR <= y.latestTime < T + 2 * HOUR && x.lastPriceSwap != y.lastPriceSwap
    ensures Combine(Closed(open, [x, y], t0, HOUR, m), startTime, At(startTime, hours * HOUR, n), n, hours * HOUR)
      != Closed(open, [x, y], startTime, hours * HOUR, n)
  {
    hide Combine, Closed, GroupStart, Lowest, Highest, LastBefore;
    var T, period := At(startTime, hours * HOUR, n - 1), hours * HOUR;
    TwoInOrder(x, y);
    NthGroupIsWholeExactly(open, [x, y], t0, m, startTime, n, hours);
    TwoWindows(x, y, T, T + HOUR);
    SecondWindow(x, y, T + HOUR, T + period);
  }

  lemma {:induction false} SecondWindow(x: AccumPoolStats, y: AccumPoolStats, lo: int, hi: int)
    requires x.latestTime < lo <= y.latestTime < hi
    ensures Window([x, y], lo, hi) == [y]
  {
    WindowAppend([], x, lo, hi);
    WindowAppend([x], y, lo, hi);
    assert [] + [x] == [x] && [x] + [y] == [x, y] && [] + [y] == [y];
  }

  lemma TwoInOrder(x: AccumPoolStats, y: AccumPoolStats)
    requires x.latestTime <= y.latestTime
    ensures NotEarlier([x, y])
  {
    assert [x, y][..1] == [x] && [x][..0] == [];
  }

  lemma {:induction false} TwoWindows(x: AccumPoolStats, y: AccumPoolStats, lo: int, hi: int)
    requires lo <= x.latestTime < hi
    ensures Window([x, y], lo, hi) == if lo <= y.latestTime < hi then [x, y] else [x]
  {
    WindowAppend([], x, lo, hi);
    WindowAppend([x], y, lo, hi);
    assert [] + [x] == [x] && [x] + [y] == [x, y];
  }
}
