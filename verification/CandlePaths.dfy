// Whether the two paths of QueryPoolCandles (views/aggPool.go) answer alike: the hourly one drops
// what comes before the first liquid hour, the direct one what comes before the first liquid
// candle.
module CandlePaths {
  import opened TradingHistory
  import opened Candles
  import opened HourlyCandles
  import opened CoarseCandles
  import opened PoolCandles

  // ---------------------------------------------------------------------------------------------
  // Coarse candles of two stretches of time that end together

  // What happened in [g, f) leaves the candle of [f, e) as it is when that is made to begin at g.
  predicate Quiet(open: AccumPoolStats, s: seq<AccumPoolStats>, g: int, f: int, e: int) {
    var o, A, B := LastBefore(open, s, g), Window(s, g, f), Window(s, f, e);
    var p := LastOf(o, A);
    && o.lastPriceSwap == p.lastPriceSwap && o.feeRate == p.feeRate
    && o.baseVolume == p.baseVolume && o.quoteVolume == p.quoteVolume
    && Lowest(p, B) <= Lowest(o, A) && Highest(o, A) <= Highest(p, B)
  }

  lemma {:induction false} CutCandle(open: AccumPoolStats, s: seq<AccumPoolStats>, g: int, f: int, e: int, period: int,
          time: int)
    requires NotEarlier(s) && g <= f <= e
    ensures CandleOver(open, s, f, e, period).(time := time) == CandleOver(open, s, g, e, period).(time := time)
      <==> Quiet(open, s, g, f, e)
  {
    hide Window, LastBefore, NotEarlier, Lowest, Highest;
    var o, A, B := LastBefore(open, s, g), Window(s, g, f), Window(s, f, e);
    Adjoining(open, s, g, f, e);
    Extremes(o, A, B);
    if B == [] { assert A + B == A; }
  }

  // In the group of g, which begins there, the candles from f on are those from g on exactly when
  // what lies between is quiet.
  lemma {:induction false} SameGroup(open: AccumPoolStats, s: seq<AccumPoolStats>, g: int, f: int, to: int, period: int)
    requires NotEarlier(s) && period > 0 && g == GroupStart(f, period) && f < to && to == GroupStart(to, period)
    ensures Coarse(open, s, f, to, period) == Coarse(open, s, g, to, period) <==> Quiet(open, s, g, f, g + period)
    decreases if f < to then to - f else 0
  {
    hide CandleOver, GroupStart, Quiet, NotEarlier;
    var T := GroupStart(to - 1, period);
    GroupIdempotent(to - 1, period);
    GroupIdempotent(f, period);
    GroupBefore(to, period);
    if T <= f {
      GroupUnique(f, T, period);
      CutCandle(open, s, g, f, to, period, T);
      OneCandle(CandleOver(open, s, f, to, period).(time := T), CandleOver(open, s, g, to, period).(time := T));
    } else {
      SameGroup(open, s, g, f, T, period);
      SameAhead(Coarse(open, s, f, T, period), Coarse(open, s, g, T, period), CandleOver(open, s, T, to, period).(time := T));
    }
  }

  lemma OneCandle(c: Candle, d: Candle)
    ensures [c] == [d] <==> c == d
  {
    assert [c][0] == c && [d][0] == d;
  }

  lemma SameAhead(cs: seq<Candle>, ds: seq<Candle>, c: Candle)
    ensures cs + [c] == ds + [c] <==> cs == ds
  {
    SameEnds(cs, ds, c, c);
  }

  lemma SameEnds(cs: seq<Candle>, ds: seq<Candle>, c: Candle, d: Candle)
    ensures cs + [c] == ds + [d] <==> cs == ds && c == d
  {
    if cs + [c] == ds + [d] {
      assert cs == (cs + [c])[..|cs|] && ds == (ds + [d])[..|ds|];
      assert c == (cs + [c])[|cs|] && d == (ds + [d])[|ds|];
    }
  }

  // The candle of [f, x) is the one of [g, e), which may begin earlier and end later.
  predicate SameCandle(open: AccumPoolStats, s: seq<AccumPoolStats>, g: int, f: int, x: int, e: int) {
    var o, A, B, C := LastBefore(open, s, g), Window(s, g, f), Window(s, f, x), Window(s, x, e);
    var p := LastOf(o, A);
    var q := LastOf(p, B);
    var r := LastOf(q, C);
    && o.lastPriceSwap == p.lastPriceSwap && o.feeRate == p.feeRate
    && q.lastPriceSwap == r.lastPriceSwap && q.feeRate == r.feeRate && q.baseTvl == r.baseTvl && q.quoteTvl == r.quoteTvl
    && q.baseVolume - p.baseVolume == r.baseVolume - o.baseVolume && q.quoteVolume - p.quoteVolume == r.quoteVolume - o.quoteVolume
    && Lowest(p, B) <= Lowest(o, A) && Lowest(p, B) <= Lowest(q, C)
    && Highest(p, B) >= Highest(o, A) && Highest(p, B) >= Highest(q, C)
  }

  lemma {:induction false} InnerCandle(open: AccumPoolStats, s: seq<AccumPoolStats>, g: int, f: int, x: int, e: int,
          period: int, time: int)
    requires NotEarlier(s) && g <= f <= x <= e
    ensures CandleOver(open, s, f, x, period).(time := time) == CandleOver(open, s, g, e, period).(time := time)
      <==> SameCandle(open, s, g, f, x, e)
  {
    hide Window, LastBefore, NotEarlier, Lowest, Highest;
    var o, A, B, C := LastBefore(open, s, g), Window(s, g, f), Window(s, f, x), Window(s, x, e);
    Adjoining(open, s, g, f, x);
    Adjoining(open, s, f, x, e);
    Adjoining(open, s, g, f, e);
    InnerExtremes(o, A, B, C);
    LastOfBoth(LastOf(o, A), B, C);
    LastOfBoth(o, A, B + C);
  }

  lemma LastOfBoth(o: AccumPoolStats, A: seq<AccumPoolStats>, B: seq<AccumPoolStats>)
    ensures LastOf(o, A + B) == LastOf(LastOf(o, A), B)
  {
    if B == [] { assert A + B == A; }
  }

  lemma InnerExtremes(o: AccumPoolStats, A: seq<AccumPoolStats>, B: seq<AccumPoolStats>, C: seq<AccumPoolStats>)
    ensures var p := LastOf(o, A); var q := LastOf(p, B);
      && (Lowest(p, B) == Lowest(o, A + (B + C)) <==> Lowest(p, B) <= Lowest(o, A) && Lowest(p, B) <= Lowest(q, C))
      && (Highest(p, B) == Highest(o, A + (B + C)) <==> Highest(p, B) >= Highest(o, A) && Highest(p, B) >= Highest(q, C))
  {
    hide Lowest, Highest;
    Extremes(o, A, B + C);
    Extremes(LastOf(o, A), B, C);
  }

  // The stretch [f, x) shows what the whole groups of [g, e) show: it begins in the first of them
  // and ends in the last, and what it leaves out of either is quiet.
  predicate SameStretch(open: AccumPoolStats, s: seq<AccumPoolStats>, f: int, x: int, g: int, e: int, period: int)
    requires period > 0
  {
    if f == x || g == e then f == x && g == e
    else
      && GroupStart(f, period) == g && GroupStart(x - 1, period) == e - period
      && if g == e - period then SameCandle(open, s, g, f, x, e)
         else Quiet(open, s, g, f, g + period) && LeavesCandle(open, s, e - period, x, e)
  }

  lemma {:induction false} StretchesAgreeExactly(open: AccumPoolStats, s: seq<AccumPoolStats>, f: int, x: int, g: int,
          e: int, period: int)
    requires NotEarlier(s) && period > 0 && f <= x <= e && g <= e && g == GroupStart(g, period) && e == GroupStart(e, period)
    ensures Coarse(open, s, f, x, period) == Coarse(open, s, g, e, period) <==> SameStretch(open, s, f, x, g, e, period)
  {
    hide CandleOver, GroupStart, Quiet, NotEarlier, Coarse, SameCandle, LeavesCandle;
    CoarseSize(open, s, f, x, period);
    CoarseSize(open, s, g, e, period);
    if f < x && g < e {
      GroupBefore(e, period);
      if GroupStart(f, period) == g && GroupStart(x - 1, period) == e - period {
        StretchesInGroups(open, s, f, x, g, e, period);
      } else {
        FirstTime(open, s, f, x, period);
        FirstTime(open, s, g, e, period);
        LastTime(open, s, f, x, period);
        LastTime(open, s, g, e, period);
      }
    }
  }

  lemma StretchesInGroups(open: AccumPoolStats, s: seq<AccumPoolStats>, f: int, x: int, g: int,
          e: int, period: int)
    requires NotEarlier(s) && period > 0 && f < x <= e && g < e && g == GroupStart(g, period) && e == GroupStart(e, period)
    requires GroupStart(f, period) == g && GroupStart(x - 1, period) == e - period
    ensures Coarse(open, s, f, x, period) == Coarse(open, s, g, e, period) <==>
      if g == e - period then SameCandle(open, s, g, f, x, e)
      else Quiet(open, s, g, f, g + period) && LeavesCandle(open, s, e - period, x, e)
  {
    hide CandleOver, Quiet, NotEarlier, Coarse, SameCandle, LeavesCandle, GroupStart;
    var T := e - period;
    GroupBefore(e, period);
    GroupBounds(x - 1, period);
    GroupBounds(f, period);
    GroupIdempotent(x - 1, period);
    CutAtGroup(open, s, f, x, period);
    CutAtGroup(open, s, g, e, period);
    var c, d := CandleOver(open, s, MaxOf(f, T), x, period).(time := T), CandleOver(open, s, T, e, period).(time := T);
    if g == T {
      CoarseSize(open, s, T, T, period);
      assert [] + [c] == [c] && [] + [d] == [d];
      OneCandle(c, d);
      InnerCandle(open, s, g, f, x, e, period, T);
    } else {
      GroupMonotone(f, x - 1, period);
      if f >= T { GroupUnique(f, T, period); }
      SameGroup(open, s, g, f, T, period);
      SameEnds(Coarse(open, s, f, T, period), Coarse(open, s, g, T, period), c, d);
      SameTimes(open, s, T, x, e, period);
      LongerCandle(open, s, T, x, e, period);
    }
  }

  lemma SameTimes(open: AccumPoolStats, s: seq<AccumPoolStats>, T: int, x: int, e: int, period: int)
    ensures CandleOver(open, s, T, x, period).(time := T) == CandleOver(open, s, T, x, period)
    ensures CandleOver(open, s, T, e, period).(time := T) == CandleOver(open, s, T, e, period)
  {
  }

  lemma LastTime(open: AccumPoolStats, s: seq<AccumPoolStats>, from: int, to: int, period: int)
    requires period > 0 && from < to
    ensures var cs := Coarse(open, s, from, to, period); cs != [] && cs[|cs| - 1].time == GroupStart(to - 1, period)
  {
    hide CandleOver, GroupStart;
  }

  // The stretch before a group and what it has of the group.
  lemma CutAtGroup(open: AccumPoolStats, s: seq<AccumPoolStats>, f: int, to: int, period: int)
    requires period > 0 && f < to
    ensures var T := GroupStart(to - 1, period);
      Coarse(open, s, f, to, period)
        == Coarse(open, s, MinOf(f, T), T, period) + [CandleOver(open, s, MaxOf(f, T), to, period).(time := T)]
  {
    hide CandleOver, GroupStart;
    var T := GroupStart(to - 1, period);
    if T <= f {
      var c := CandleOver(open, s, MaxOf(f, T), to, period).(time := T);
      assert Coarse(open, s, T, T, period) == [] && [] + [c] == [c];
    }
  }

  lemma {:induction false} FirstTime(open: AccumPoolStats, s: seq<AccumPoolStats>, from: int, to: int, period: int)
    requires period > 0 && from < to
    ensures Coarse(open, s, from, to, period) != [] && Coarse(open, s, from, to, period)[0].time == GroupStart(from, period)
  {
    hide CandleOver, GroupStart, Coarse;
    CoarseSize(open, s, from, to, period);
    CoarseAt(open, s, from, to, period, 0);
  }

  // ---------------------------------------------------------------------------------------------
  // What each path returns of a window of n periods

  // A pool's states, of which there are some by the time it has snapshots.
  predicate History(R: seq<AccumPoolStats>) {
    NotEarlier(R) && |R| > 1 && R[0].latestTime > 0
  }

  lemma ReadableIsHistory(es: seq<AggEvent>)
    requires TimeOrdered(es) && Snaps(es) != []
    ensures History(Readable(es))
  {
    ReadableOrdered(es);
    assert Readable(es)[0] == Snaps(es)[0];
  }

  // When the first hour begins that the hourly path keeps.
  function FirstKept(R: seq<AccumPoolStats>, m: nat): int
    requires R != []
  {
    At(FirstHour(R), HOUR, Dropped(Hours(R, m)))
  }

  // How far the hourly path takes hours: to the end of the window, of the hours there are, or of
  // the first hour of the nth group.
  function TakenOf(R: seq<AccumPoolStats>, m: nat, startTime: int, n: int, period: int): int
    requires R != [] && n > 0 && period > 0
  {
    TakenTo(FirstKept(R, m), m - Dropped(Hours(R, m)), startTime, At(startTime, period, n), n, period)
  }

  function HourlyList(R: seq<AccumPoolStats>, m: nat, startTime: int, n: int, period: int): seq<Candle>
    requires R != [] && n > 0 && period > 0
  {
    Combine(Kept(Hours(R, m)), startTime, At(startTime, period, n), n, period)
  }

  // The candles of the direct path, and how many of them it drops.
  function AllDirect(R: seq<AccumPoolStats>, startTime: int, n: nat, period: int): seq<Candle>
    requires n > 0 && period > 0
  {
    var endTime := At(startTime, period, n);
    Closed(OpenOf(R, startTime, endTime), R, startTime, period, EndingBefore(startTime, period, endTime))
  }

  function DirectList(R: seq<AccumPoolStats>, startTime: int, n: nat, period: int): seq<Candle>
    requires n > 0 && period > 0
  {
    Kept(AllDirect(R, startTime, n, period))
  }

  lemma {:induction false} HourlyIsCoarse(R: seq<AccumPoolStats>, m: nat, startTime: int, n: nat, hours: int)
    requires History(R) && hours > 0 && n > 0 && startTime == GroupStart(startTime, hours * HOUR) > 0
    ensures var period := hours * HOUR;
      HourlyList(R, m, startTime, n, period)
        == Coarse(R[0], R, MaxOf(FirstKept(R, m), startTime), TakenOf(R, m, startTime, n, period), period)
  {
    hide Combine, Closed, GroupStart, Kept, NotEarlier, Coarse, Dropped, TakenTo;
    var period := hours * HOUR;
    FirstHourIs(R);
    GroupOnTheHour(startTime, hours);
    AtOnTheHour(startTime, hours, n);
    var from := MaxOf(At(FirstHour(R), HOUR, Dropped(Closed(R[0], R, FirstHour(R), HOUR, m))), startTime);
    GroupMonotone(startTime, from, period);
    KeptCombinedIsCoarse(R[0], R, FirstHour(R), m, startTime, At(startTime, period, n), n, hours);
  }

  // Of the direct list, too, whenever the pool came to be: before that there is nothing to show.
  lemma {:induction false} DirectIsCoarse(R: seq<AccumPoolStats>, startTime: int, n: nat, period: int)
    requires History(R) && n > 0 && period > 0 && startTime == GroupStart(startTime, period)
    ensures var c := Dropped(AllDirect(R, startTime, n, period));
      && c <= n - 1
      && DirectList(R, startTime, n, period) == Coarse(R[0], R, At(startTime, period, c), At(startTime, period, n - 1), period)
  {
    hide Closed, GroupStart, Kept, NotEarlier, Coarse, Dropped, LastBefore, OpenOf;
    var all, endTime := AllDirect(R, startTime, n, period), At(startTime, period, n);
    var c := Dropped(all);
    AllButTheLast(startTime, period, n);
    KeptIs(all);
    if R[0].latestTime <= endTime {
      SameOpen(R, startTime, endTime);
      SameOpening(R[0], OpenOf(R, startTime, endTime), R, startTime, period, n - 1);
      assert all == Closed(R[0], R, startTime, period, n - 1);
      ClosedSuffix(R[0], R, startTime, period, n - 1, c);
      AtGroups(startTime, period, c);
      WholeGroups(R[0], R, At(startTime, period, c), period, n - 1 - c);
      AtAfter(startTime, period, c, n - 1 - c);
    } else {
      AtNotBefore(startTime, period, n);
      NotBornYet(R, startTime, endTime, period, n - 1);
      CoarseSize(R[0], R, At(startTime, period, c), At(startTime, period, n - 1), period);
    }
  }

  lemma {:induction false} NotBornYet(R: seq<AccumPoolStats>, s: int, e: int, period: int, k: nat)
    requires NotEarlier(R) && R != [] && period > 0 && s <= e < R[0].latestTime && At(s, period, k) <= e
    ensures var all := Closed(OpenOf(R, s, e), R, s, period, k); Kept(all) == [] && Dropped(all) == k
  {
    hide Closed, Kept, Dropped, Window, NotEarlier;
    AllLater(R, s, e);
    ClosedWithin(ZERO_STATS, R, s, e, period, k);
    NothingKept(s, period, k);
  }

  lemma SameOpen(R: seq<AccumPoolStats>, s: int, e: int)
    requires |R| > 1 && R[0].latestTime <= e
    ensures LastBefore(OpenOf(R, s, e), R, s) == LastBefore(R[0], R, s)
  {
  }

  // ---------------------------------------------------------------------------------------------
  // What the hourly path shows of the last period

  // Of the last group of the window the hourly path shows the hours it takes.
  function LastShown(R: seq<AccumPoolStats>, m: nat, startTime: int, n: nat, period: int): Candle
    requires R != [] && n > 0 && period > 0
  {
    var T := At(startTime, period, n - 1);
    CandleOver(R[0], R, MaxOf(FirstKept(R, m), T), TakenOf(R, m, startTime, n, period), period).(time := T)
  }

  // It takes one when an hour of the last period is cached and the first kept hour begins in time.
  predicate TakesLast(R: seq<AccumPoolStats>, m: nat, startTime: int, n: nat, period: int)
    requires R != [] && n > 0
  {
    var cachedTo := At(FirstHour(R), HOUR, m);
    At(startTime, period, n - 1) < cachedTo && FirstKept(R, m) < cachedTo && FirstKept(R, m) < At(startTime, period, n)
  }

  lemma {:induction false} TakesLastExactly(R: seq<AccumPoolStats>, m: nat, startTime: int, n: nat, hours: int)
    requires History(R) && hours > 0 && n > 0 && startTime == GroupStart(startTime, hours * HOUR) > 0
    ensures var T, first := At(startTime, hours * HOUR, n - 1), MaxOf(FirstKept(R, m), startTime);
      var x := TakenOf(R, m, startTime, n, hours * HOUR);
      && first <= x
      && (TakesLast(R, m, startTime, n, hours * HOUR) <==> first < x && T < x)
      && (first < x ==> x <= T + hours * HOUR)
  {
    hide GroupStart, Combine, Kept, NotEarlier, Dropped, CandleOver, Closed;
    var period := hours * HOUR;
    var T, d, f := At(startTime, period, n - 1), Dropped(Hours(R, m)), MaxOf(FirstKept(R, m), startTime);
    AtAfter(FirstHour(R), HOUR, d, m - d);
    GroupMonotone(startTime, f, period);
    GroupBounds(f, period);
    AtNotBefore(startTime, period, n - 1);
    AtNotBefore(GroupStart(f, period), period, n - 1);
    if n > 1 {
      AtShifted(startTime, GroupStart(f, period), period, n - 1);
      AtRises(GroupStart(f, period), period, 0, n - 1);
    }
  }

  lemma {:induction false} AtShifted(a: int, b: int, period: int, k: nat)
    requires a <= b
    ensures At(a, period, k) <= At(b, period, k)
  {
    if k > 0 { AtShifted(a, b, period, k - 1); }
  }

  // The groups before the last, then, and the last as far as it is taken.
  lemma {:induction false} HourlyIs(R: seq<AccumPoolStats>, m: nat, startTime: int, n: nat, hours: int)
    requires History(R) && hours > 0 && n > 0 && startTime == GroupStart(startTime, hours * HOUR) > 0
    ensures var period := hours * HOUR;
      var T, first, x := At(startTime, period, n - 1), MaxOf(FirstKept(R, m), startTime), TakenOf(R, m, startTime, n, period);
      HourlyList(R, m, startTime, n, period) ==
        Coarse(R[0], R, MinOf(first, T), MinOf(x, T), period)
          + if TakesLast(R, m, startTime, n, period) then [LastShown(R, m, startTime, n, period)] else []
  {
    hide GroupStart, Combine, Kept, NotEarlier, Dropped, CandleOver, Hours, Coarse, TakenOf, FirstKept, HourlyList, TakesLast;
    var period := hours * HOUR;
    var T, first, x := At(startTime, period, n - 1), MaxOf(FirstKept(R, m), startTime), TakenOf(R, m, startTime, n, period);
    HourlyIsCoarse(R, m, startTime, n, hours);
    TakesLastExactly(R, m, startTime, n, hours);
    AtGroups(startTime, period, n - 1);
    AtNotBefore(startTime, period, n - 1);
    if first < x && T < x {
      GroupUnique(x - 1, T, period);
      CutAtGroup(R[0], R, first, x, period);
    } else if first == x {
      CoarseSize(R[0], R, first, x, period);
      CoarseSize(R[0], R, MinOf(first, T), MinOf(x, T), period);
    }
  }

  // ---------------------------------------------------------------------------------------------
  // What the hourly path answers

  // The candle of the last period but one, which is put after a window that ends in the future.
  function Latest(R: seq<AccumPoolStats>, startTime: int, n: nat, period: int): Candle
    requires R != [] && n > 0
  {
    var T := At(startTime, period, n - 1);
    CandleOver(R[0], R, T - period, T, period)
  }

  predicate AddsLatest(R: seq<AccumPoolStats>, later: int, startTime: int, n: nat, period: int)
    requires R != [] && n > 0
  {
    && later < At(startTime, period, n)
    && R[0].latestTime <= At(startTime, period, n - 1) && IsLiquid(Latest(R, startTime, n, period))
  }

  function AnswerOf(R: seq<AccumPoolStats>, m: nat, later: int, startTime: int, n: nat, period: int): seq<Candle>
    requires R != [] && period > 0
  {
    HourlyAnswer(R, Kept(Hours(R, m)), later, startTime, At(startTime, period, n), n, period)
  }

  lemma LatestIs(R: seq<AccumPoolStats>, later: int, startTime: int, n: nat, period: int)
    requires History(R) && n > 0 && period > 0
    ensures var T := At(startTime, period, n - 1);
      var latest := Kept(Closed(OpenOf(R, T - period, T), R, T - period, period, 1));
      later < At(startTime, period, n) ==>
        latest == if AddsLatest(R, later, startTime, n, period) then [Latest(R, startTime, n, period)] else []
  {
    hide Kept, OpenOf, NotEarlier, LastBefore, CandleOver, IsLiquid;
    var T := At(startTime, period, n - 1);
    var c := Latest(R, startTime, n, period);
    if R[0].latestTime <= T {
      SameOpen(R, T - period, T);
      SameOpening(R[0], OpenOf(R, T - period, T), R, T - period, period, 1);
      JustOne(R[0], R, T - period, period);
      assert [] + [c] == [c];
      assert Kept([]) == [] by { KeptIs([]); }
      KeptAppend([], c, [c]);
    } else {
      NotBornYet(R, T - period, T, period, 1);
    }
  }

  lemma JustOne(open: AccumPoolStats, s: seq<AccumPoolStats>, start: int, period: int)
    ensures Closed(open, s, start, period, 1) == [CandleOver(open, s, start, start + period, period)]
  {
    hide CandleOver;
    assert Closed(open, s, start, period, 0) == [];
  }

  lemma CombinedThenLatest(R: seq<AccumPoolStats>, m: nat, later: int, startTime: int, n: nat, period: int)
    requires History(R) && n > 0 && period > 0
    ensures AnswerOf(R, m, later, startTime, n, period) ==
      if AddsLatest(R, later, startTime, n, period)
      then WithLatest(HourlyList(R, m, startTime, n, period), [Latest(R, startTime, n, period)])
      else HourlyList(R, m, startTime, n, period)
  {
    hide Kept, Closed, Hours, OpenOf, NotEarlier, Combine, CandleOver, IsLiquid;
    LatestIs(R, later, startTime, n, period);
    var endTime, T := At(startTime, period, n), At(startTime, period, n - 1);
    assert endTime - 2 * period == T - period;
  }

  // The answer, for every window. When the candle of the last period but one is added, it stands
  // for what the hours had of that period, unless they went on to the last: then it comes after it.
  lemma {:induction false} AnswerIs(R: seq<AccumPoolStats>, m: nat, later: int, startTime: int, n: nat, hours: int)
    requires History(R) && hours > 0 && n > 0 && startTime == GroupStart(startTime, hours * HOUR) > 0
    ensures var period := hours * HOUR;
      var T, first, x := At(startTime, period, n - 1), MaxOf(FirstKept(R, m), startTime), TakenOf(R, m, startTime, n, period);
      var added, last := AddsLatest(R, later, startTime, n, period), TakesLast(R, m, startTime, n, period);
      var e := if added && !last then T - period else T;
      AnswerOf(R, m, later, startTime, n, period) ==
        Coarse(R[0], R, MinOf(first, e), MinOf(x, e), period)
          + (if last then [LastShown(R, m, startTime, n, period)] else [])
          + (if added then [Latest(R, startTime, n, period)] else [])
  {
    hide GroupStart, NotEarlier, CandleOver, Coarse, TakenOf, FirstKept, HourlyList, TakesLast, AddsLatest, AnswerOf, At;
    var period := hours * HOUR;
    var T, first, x := At(startTime, period, n - 1), MaxOf(FirstKept(R, m), startTime), TakenOf(R, m, startTime, n, period);
    var latest := Latest(R, startTime, n, period);
    CombinedThenLatest(R, m, later, startTime, n, period);
    HourlyIs(R, m, startTime, n, hours);
    LatestTimes(R, m, startTime, n, period);
    if AddsLatest(R, later, startTime, n, period) {
      if TakesLast(R, m, startTime, n, period) {
        LatestAfter(Coarse(R[0], R, MinOf(first, T), MinOf(x, T), period), LastShown(R, m, startTime, n, period), latest);
      } else {
        AtGroups(startTime, period, n - 1);
        TakesLastExactly(R, m, startTime, n, hours);
        LatestFollows(R, MinOf(first, T), MinOf(x, T), T, period, latest);
        NoneAdded(Coarse(R[0], R, MinOf(first, T), MinOf(x, T), period));
        NoneAdded(Coarse(R[0], R, MinOf(first, T - period), MinOf(x, T - period), period));
        if MinOf(first, T) >= MinOf(x, T) {
          CoarseSize(R[0], R, MinOf(first, T - period), MinOf(x, T - period), period);
        }
      }
    }
  }

  lemma NoneAdded(cs: seq<Candle>)
    ensures cs + [] == cs
  {
  }

  lemma LatestAfter(cs: seq<Candle>, last: Candle, latest: Candle)
    requires last.time != latest.time
    ensures WithLatest(cs + [last], [latest]) == cs + [last] + [latest]
  {
  }

  lemma LatestTimes(R: seq<AccumPoolStats>, m: nat, startTime: int, n: nat, period: int)
    requires R != [] && n > 0 && period > 0
    ensures Latest(R, startTime, n, period).time == At(startTime, period, n - 1) - period
    ensures LastShown(R, m, startTime, n, period).time == At(startTime, period, n - 1)
  {
  }

  // The latest candle of a stretch that does not go beyond T.
  lemma LatestFollows(R: seq<AccumPoolStats>, f: int, x: int, T: int, period: int, latest: Candle)
    requires R != [] && period > 0 && T == GroupStart(T, period) && x <= T && latest.time == T - period
    ensures WithLatest(Coarse(R[0], R, f, x, period), [latest]) ==
      (if f < x then Coarse(R[0], R, MinOf(f, T - period), MinOf(x, T - period), period) else []) + [latest]
  {
    hide GroupStart, CandleOver, Coarse;
    CoarseSize(R[0], R, f, x, period);
    if f < x {
      GroupBefore(T, period);
      LastTime(R[0], R, f, x, period);
      GroupMonotone(x - 1, T - 1, period);
      if T - period < x {
        GroupIdempotent(T - 1, period);
        GroupUnique(x - 1, T - period, period);
        CutAtGroup(R[0], R, f, x, period);
      } else {
        GroupBounds(x - 1, period);
      }
    }
  }

  // ---------------------------------------------------------------------------------------------
  // Both paths agree, exactly when

  // Of a window, an answer lists what the direct path lists, and no more than a candle of the
  // last period after it, which the direct path never lists.
  predicate UpToLast(answer: seq<Candle>, direct: seq<Candle>, lastPeriod: int) {
    || answer == direct
    || (|answer| == |direct| + 1 && answer == direct + [answer[|direct|]] && answer[|direct|].time == lastPeriod)
  }

  // For every pool and window, cached hours and time of asking: the candle added must not come
  // after one of the last period or before the window, and the stretch of hours before it must
  // show what the direct path shows.
  lemma {:induction false} FastIsDirectExactly(R: seq<AccumPoolStats>, m: nat, later: int, startTime: int, n: nat, hours: int)
    requires History(R) && hours > 0 && n > 0 && startTime == GroupStart(startTime, hours * HOUR) > 0
    ensures var period := hours * HOUR;
      var T, first, x := At(startTime, period, n - 1), MaxOf(FirstKept(R, m), startTime), TakenOf(R, m, startTime, n, period);
      var kept := At(startTime, period, Dropped(AllDirect(R, startTime, n, period)));
      var added, last := AddsLatest(R, later, startTime, n, period), TakesLast(R, m, startTime, n, period);
      var e := if added then T - period else T;
      UpToLast(AnswerOf(R, m, later, startTime, n, period), DirectList(R, startTime, n, period), T) <==>
        !(added && (last || n == 1)) && SameStretch(R[0], R, MinOf(first, e), MinOf(x, e), kept, e, period)
  {
    hide GroupStart, Combine, Kept, NotEarlier, Dropped, CandleOver, Hours, Coarse, SameStretch, LastShown, Latest,
      HourlyList, DirectList, AllDirect, AnswerOf, TakesLast, AddsLatest, TakenOf, FirstKept, At;
    var period := hours * HOUR;
    var T, first, x := At(startTime, period, n - 1), MaxOf(FirstKept(R, m), startTime), TakenOf(R, m, startTime, n, period);
    var kept := At(startTime, period, Dropped(AllDirect(R, startTime, n, period)));
    var added, last := AddsLatest(R, later, startTime, n, period), TakesLast(R, m, startTime, n, period);
    var e := if added then T - period else T;
    AnswerIs(R, m, later, startTime, n, hours);
    TakesLastExactly(R, m, startTime, n, hours);
    DirectIsCoarse(R, startTime, n, period);
    LatestTimes(R, m, startTime, n, period);
    KeptInWindow(startTime, period, Dropped(AllDirect(R, startTime, n, period)), n - 1);
    GroupBefore(T, period);
    GroupIdempotent(T - 1, period);
    var C, latest := Coarse(R[0], R, MinOf(first, e), MinOf(x, e), period), Latest(R, startTime, n, period);
    CoarseEndsBefore(R[0], R, MinOf(first, T), MinOf(x, T), T, period);
    CoarseEndsBefore(R[0], R, kept, T, T, period);
    if added {
      DirectEndsInLatest(R, later, startTime, n, period);
      if last {
        LatestTooLate(Coarse(R[0], R, MinOf(first, T), MinOf(x, T), period), LastShown(R, m, startTime, n, period), latest,
          DirectList(R, startTime, n, period), T);
      } else if n == 1 {
        LatestTooEarly(C, latest, DirectList(R, startTime, n, period), T);
      } else {
        StretchesAgreeExactly(R[0], R, MinOf(first, e), MinOf(x, e), kept, e, period);
        UpToLatest(C, Coarse(R[0], R, kept, e, period), latest, T);
      }
    } else {
      StretchesAgreeExactly(R[0], R, MinOf(first, e), MinOf(x, e), kept, e, period);
      UpToTail(C, DirectList(R, startTime, n, period), if last then [LastShown(R, m, startTime, n, period)] else [], T);
    }
  }

  // If the latest candle is added the direct path lists it, as the last one (unless there is
  // nothing but the last period).
  lemma {:induction false} DirectEndsInLatest(R: seq<AccumPoolStats>, later: int, startTime: int, n: nat, period: int)
    requires History(R) && n > 0 && period > 0 && startTime == GroupStart(startTime, period)
    requires AddsLatest(R, later, startTime, n, period)
    ensures var T, c := At(startTime, period, n - 1), Dropped(AllDirect(R, startTime, n, period));
      if n == 1 then DirectList(R, startTime, n, period) == []
      else
        && At(startTime, period, c) <= T - period
        && DirectList(R, startTime, n, period)
          == Coarse(R[0], R, At(startTime, period, c), T - period, period) + [Latest(R, startTime, n, period)]
        && EndsBefore(Coarse(R[0], R, At(startTime, period, c), T - period, period), T)
  {
    hide GroupStart, Kept, NotEarlier, CandleOver, Closed, Coarse, OpenOf, LastBefore, IsLiquid, Dropped, DirectList;
    var T, endTime, all := At(startTime, period, n - 1), At(startTime, period, n), AllDirect(R, startTime, n, period);
    DirectIsCoarse(R, startTime, n, period);
    if n == 1 {
      CoarseSize(R[0], R, T, T, period);
    } else {
      AllButTheLast(startTime, period, n);
      SameOpen(R, startTime, endTime);
      SameOpening(R[0], OpenOf(R, startTime, endTime), R, startTime, period, n - 1);
      ClosedAt(R[0], R, startTime, period, n - 1, n - 2);
      DroppedBefore(all, n - 2);
      var kept := At(startTime, period, Dropped(all));
      KeptInWindow(startTime, period, Dropped(all), n - 2);
      AtGroups(startTime, period, n - 1);
      GroupBefore(T, period);
      CutAtGroup(R[0], R, kept, T, period);
      CoarseEndsBefore(R[0], R, kept, T - period, T, period);
      LatestTimes(R, 0, startTime, n, period);
    }
  }

  lemma {:induction false} DroppedBefore(cs: seq<Candle>, i: nat)
    requires i < |cs| && IsLiquid(cs[i])
    ensures Dropped(cs) <= i
  {
    hide IsLiquid;
    if i < |cs| - 1 { DroppedBefore(cs[..|cs| - 1], i); }
  }

  predicate EndsBefore(cs: seq<Candle>, t: int) {
    cs == [] || cs[|cs| - 1].time < t
  }

  lemma CoarseEndsBefore(open: AccumPoolStats, s: seq<AccumPoolStats>, f: int, x: int, t: int, period: int)
    requires period > 0 && x <= t
    ensures EndsBefore(Coarse(open, s, f, x, period), t)
  {
    hide CandleOver, GroupStart, Coarse;
    CoarseSize(open, s, f, x, period);
    if f < x { LastTime(open, s, f, x, period); }
  }

  lemma UpToTail(cs: seq<Candle>, ds: seq<Candle>, tail: seq<Candle>, t: int)
    requires EndsBefore(cs, t) && EndsBefore(ds, t) && |tail| <= 1 && (tail != [] ==> tail[0].time == t)
    ensures UpToLast(cs + tail, ds, t) <==> cs == ds
  {
    var answer := cs + tail;
    if tail == [] {
      assert answer == cs;
    } else {
      assert answer == cs + [tail[0]] && answer[|answer| - 1] == tail[0];
      if |answer| == |ds| + 1 { SameEnds(cs, ds, tail[0], answer[|ds|]); }
    }
  }

  lemma UpToLatest(cs: seq<Candle>, ds: seq<Candle>, latest: Candle, t: int)
    requires latest.time < t
    ensures UpToLast(cs + [latest], ds + [latest], t) <==> cs == ds
  {
    SameAhead(cs, ds, latest);
    assert (cs + [latest])[|cs|] == latest;
  }

  lemma LatestTooLate(cs: seq<Candle>, last: Candle, latest: Candle, direct: seq<Candle>, t: int)
    requires last.time == t && latest.time < t
    requires direct == [] || (direct[|direct| - 1] == latest && EndsBefore(direct[..|direct| - 1], t))
    ensures !UpToLast(cs + [last] + [latest], direct, t)
  {
    var answer := cs + [last] + [latest];
    assert answer[|cs|] == last && answer[|cs| + 1] == latest && |answer| == |cs| + 2;
    if direct != [] {
      assert direct == direct[..|direct| - 1] + [latest];
      SameEnds(cs + [last], direct[..|direct| - 1], latest, latest);
      assert (cs + [last])[|cs|] == last;
    }
  }

  lemma LatestTooEarly(cs: seq<Candle>, latest: Candle, direct: seq<Candle>, t: int)
    requires latest.time < t && direct == []
    ensures !UpToLast(cs + [latest], direct, t)
  {
    assert (cs + [latest])[|cs|] == latest;
  }

  lemma KeptInWindow(startTime: int, period: int, c: nat, k: nat)
    requires period > 0 && c <= k && startTime == GroupStart(startTime, period)
    ensures At(startTime, period, c) <= At(startTime, period, k)
    ensures At(startTime, period, c) == GroupStart(At(startTime, period, c), period)
    ensures At(startTime, period, k) == GroupStart(At(startTime, period, k), period)
  {
    hide GroupStart;
    AtGroups(startTime, period, c);
    AtGroups(startTime, period, k);
    if c < k { AtRises(startTime, period, c, k); }
  }

  // A pool that was liquid once before the window and in none of its candles: the hourly path
  // lists them all, the direct path none.
  lemma {:induction false} HourlyListsWhatDirectDrops(R: seq<AccumPoolStats>, m: nat, later: int, startTime: int, n: nat,
          hours: int)
    requires History(R) && hours > 0 && n > 1 && startTime == GroupStart(startTime, hours * HOUR) > 0
    ensures var period := hours * HOUR;
      var liquidBefore, liquidIn := FirstKept(R, m) <= startTime, Dropped(AllDirect(R, startTime, n, period)) < n - 1;
      At(startTime, period, n - 1) < At(FirstHour(R), HOUR, m) && liquidBefore && !liquidIn ==>
        DirectList(R, startTime, n, period) == [] && |AnswerOf(R, m, later, startTime, n, period)| == n
  {
    hide GroupStart, Combine, Kept, NotEarlier, Dropped, CandleOver, Hours, Coarse, HourlyList, DirectList, AllDirect, AnswerOf,
      FirstKept, TakenOf, AddsLatest;
    var period := hours * HOUR;
    var T := At(startTime, period, n - 1);
    if T < At(FirstHour(R), HOUR, m) && FirstKept(R, m) <= startTime && Dropped(AllDirect(R, startTime, n, period)) >= n - 1 {
      AtRises(startTime, period, 0, n - 1);
      AtRises(startTime, period, n - 1, n);
      TakesLastExactly(R, m, startTime, n, hours);
      DirectIsCoarse(R, startTime, n, period);
      CoarseSize(R[0], R, T, T, period);
      AnswerIs(R, m, later, startTime, n, hours);
      WholeGroups(R[0], R, startTime, period, n - 1);
      if AddsLatest(R, later, startTime, n, period) { DirectEndsInLatest(R, later, startTime, n, period); }
    }
  }

  // ---------------------------------------------------------------------------------------------
  // The order of an answer

  predicate TimesRise(cs: seq<Candle>) {
    cs == [] || (TimesRise(cs[..|cs| - 1]) && EndsBefore(cs[..|cs| - 1], cs[|cs| - 1].time))
  }

  lemma {:induction false} RisesBy(cs: seq<Candle>, c: Candle)
    ensures TimesRise(cs + [c]) <==> TimesRise(cs) && EndsBefore(cs, c.time)
  {
    assert (cs + [c])[..|cs|] == cs;
  }

  lemma {:induction false} CoarseRises(open: AccumPoolStats, s: seq<AccumPoolStats>, from: int, to: int, period: int)
    requires period > 0
    ensures TimesRise(Coarse(open, s, from, to, period))
    decreases if from < to then to - from else 0
  {
    hide CandleOver, GroupStart;
    if from < to {
      var T := GroupStart(to - 1, period);
      var c := CandleOver(open, s, MaxOf(from, T), to, period).(time := T);
      CutAtGroup(open, s, from, to, period);
      if from < T { CoarseRises(open, s, from, T, period); }
      CoarseEndsBefore(open, s, MinOf(from, T), T, T, period);
      RisesBy(Coarse(open, s, MinOf(from, T), T, period), c);
    }
  }

  // The candles of an answer are in the order of their times if and only if not both an hour of
  // the last period has ended and the candle of the period before it is added.
  lemma TimesRiseExactly(R: seq<AccumPoolStats>, m: nat, later: int, startTime: int, n: nat, hours: int)
    requires History(R) && hours > 0 && n > 0 && startTime == GroupStart(startTime, hours * HOUR) > 0
    ensures TimesRise(AnswerOf(R, m, later, startTime, n, hours * HOUR)) <==>
      !(AddsLatest(R, later, startTime, n, hours * HOUR) && TakesLast(R, m, startTime, n, hours * HOUR))
  {
    hide GroupStart, NotEarlier, CandleOver, Coarse, TakenOf, FirstKept, TakesLast, AddsLatest, AnswerOf, At, LastShown, Latest,
      TimesRise;
    var period := hours * HOUR;
    var T, first, x := At(startTime, period, n - 1), MaxOf(FirstKept(R, m), startTime), TakenOf(R, m, startTime, n, period);
    var added, last := AddsLatest(R, later, startTime, n, period), TakesLast(R, m, startTime, n, period);
    var e := if added && !last then T - period else T;
    var C := Coarse(R[0], R, MinOf(first, e), MinOf(x, e), period);
    var tail, latest := LastShown(R, m, startTime, n, period), Latest(R, startTime, n, period);
    AnswerIs(R, m, later, startTime, n, hours);
    LatestTimes(R, m, startTime, n, period);
    CoarseRises(R[0], R, MinOf(first, e), MinOf(x, e), period);
    CoarseEndsBefore(R[0], R, MinOf(first, e), MinOf(x, e), e, period);
    NoneAdded(C);
    if last {
      RisesBy(C, tail);
      NoneAdded(C + [tail]);
      RisesBy(C + [tail], latest);
      assert (C + [tail])[|C|] == tail;
    } else {
      RisesBy(C, latest);
    }
  }

  predicate AlwaysLiquid(R: seq<AccumPoolStats>) {
    forall i :: 0 <= i < |R| ==> R[i].baseTvl >= MIN_VALID_LIQUIDITY || R[i].quoteTvl >= MIN_VALID_LIQUIDITY
  }

  lemma LiquidThroughout(R: seq<AccumPoolStats>, from: int, to: int, period: int)
    requires NotEarlier(R) && R != [] && AlwaysLiquid(R) && from <= to
    ensures IsLiquid(CandleOver(R[0], R, from, to, period))
  {
    hide Window, NotEarlier, Lowest, Highest;
    Adjoining(R[0], R, from, to, to);
    assert LastBefore(R[0], R, to) in R;
  }

  // The input: a pool that has been liquid since before the window, and a window of two periods or
  // more that ends in the future, with an hour of its last period over and cached (so that periods
  // are two hours or longer). The answer goes from the last period but one to the last, and back.
  lemma LatestRepeatsPeriod(R: seq<AccumPoolStats>, m: nat, later: int, startTime: int, n: nat, hours: int)
    requires History(R) && AlwaysLiquid(R) && hours > 0 && n > 1 && startTime == GroupStart(startTime, hours * HOUR)
    requires R[0].latestTime <= startTime
    requires At(startTime, hours * HOUR, n - 1) < At(FirstHour(R), HOUR, m) && later < At(startTime, hours * HOUR, n)
    ensures var answer, T := AnswerOf(R, m, later, startTime, n, hours * HOUR), At(startTime, hours * HOUR, n - 1);
      && |answer| > 2
      && answer[|answer| - 3].time == T - hours * HOUR
      && answer[|answer| - 2].time == T
      && answer[|answer| - 1].time == T - hours * HOUR
  {
    hide GroupStart, NotEarlier, CandleOver, Closed, Coarse, TakenOf, AnswerOf, LastShown, Dropped, AlwaysLiquid, IsLiquid;
    var period := hours * HOUR;
    var T, t0 := At(startTime, period, n - 1), FirstHour(R);
    AtRises(startTime, period, 0, n - 1);
    AtRises(startTime, period, n - 1, n);
    GroupBounds(R[0].latestTime, HOUR);
    assert m > 0;
    ClosedAt(R[0], R, t0, HOUR, m, 0);
    LiquidThroughout(R, t0, t0 + HOUR, HOUR);
    DroppedBefore(Hours(R, m), 0);
    LiquidThroughout(R, T - period, T, period);
    assert FirstKept(R, m) == t0;
    AnswerIs(R, m, later, startTime, n, hours);
    LatestTimes(R, m, startTime, n, period);
    TakesLastExactly(R, m, startTime, n, hours);
    LastTime(R[0], R, startTime, T, period);
    AtGroups(startTime, period, n - 1);
    GroupBefore(T, period);
  }
}
