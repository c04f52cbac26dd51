// A pool's liquidity curve (model/liquidityCurve.go): a sparse map of tick deltas, kept in step
// with the ledger of open range and knockout orders.
module LiquidityCurves {
  import opened Basics

  datatype PositionType = Ambient | Concentrated | Knockout
  datatype ChangeType = Mint | Burn | Cross | Harvest | Other

  // A liquidity change. `magn` is the liquidity its flows amount to.
  datatype LiqChange = LiqChange(
    time: int,
    positionType: PositionType,
    changeType: ChangeType,
    bidTick: int,
    askTick: int,
    isBid: bool,
    magn: real)

  datatype Bump = Bump(
    tick: int,
    liquidityDelta: real,
    knockoutBidLiq: real,
    knockoutAskLiq: real,
    knockoutBidWidth: int,
    knockoutAskWidth: int,
    latestUpdateTime: int)

  type Bumps = map<int, Bump>

  datatype Curve = Curve(ambientLiq: real, bumps: Bumps)

  const NEW_CURVE := Curve(0.0, map[])

  // ---------------------------------------------------------------------------------------------
  // The curve on values

  function NewBump(tick: int): Bump {
    Bump(tick, 0.0, 0.0, 0.0, 0, 0, 0)
  }

  function Materialize(m: Bumps, tick: int): Bumps {
    if tick in m then m else m[tick := NewBump(tick)]
  }

  // The liquidity a mint adds or a burn takes away.
  function Signed(l: LiqChange): real {
    if l.changeType.Burn? then -l.magn else l.magn
  }

  function WithLiquidity(b: Bump, delta: real, time: int): Bump {
    b.(liquidityDelta := b.liquidityDelta + delta, latestUpdateTime := time)
  }

  function WithKOBid(b: Bump, delta: real, joinTick: int): Bump {
    b.(knockoutBidLiq := b.knockoutBidLiq + delta, knockoutBidWidth := joinTick - b.tick)
  }

  function WithKOAsk(b: Bump, delta: real, joinTick: int): Bump {
    b.(knockoutAskLiq := b.knockoutAskLiq + delta, knockoutAskWidth := b.tick - joinTick)
  }

  function WithoutKOBid(b: Bump, time: int): Bump {
    WithLiquidity(b, -b.knockoutBidLiq, time).(knockoutBidLiq := 0.0, knockoutBidWidth := 0)
  }

  function WithoutKOAsk(b: Bump, time: int): Bump {
    WithLiquidity(b, -b.knockoutAskLiq, time).(knockoutAskLiq := 0.0, knockoutAskWidth := 0)
  }

  // Adding liquidity at a tick; None when the bump has seen a later time.
  function AddAt(m: Bumps, tick: int, delta: real, time: int): Option<Bumps> {
    var m' := Materialize(m, tick);
    if time < m'[tick].latestUpdateTime then None else Some(m'[tick := WithLiquidity(m'[tick], delta, time)])
  }

  // Liquidity between two ticks.
  function AddBetween(m: Bumps, l: LiqChange): (r: Option<Bumps>)
    ensures r.Some? ==> l.bidTick in r.value && l.askTick in r.value
  {
    var m0 := Materialize(Materialize(m, l.bidTick), l.askTick);
    match AddAt(m0, l.bidTick, Signed(l), l.time)
    case None => None
    case Some(m1) => AddAt(m1, l.askTick, -Signed(l), l.time)
  }

  function UserLiq(m: Bumps, l: LiqChange): Option<Bumps> {
    match AddBetween(m, l)
    case None => None
    case Some(n) =>
      if !l.positionType.Knockout? then Some(n)
      else if l.isBid then Some(n[l.bidTick := WithKOBid(n[l.bidTick], Signed(l), l.askTick)])
      else Some(n[l.askTick := WithKOAsk(n[l.askTick], -Signed(l), l.bidTick)])
  }

  function KOCross(m: Bumps, l: LiqChange): Option<Bumps> {
    var tick := if l.isBid then l.bidTick else l.askTick;
    var m0 := Materialize(m, tick);
    var b := m0[tick];
    if l.time < b.latestUpdateTime then None
    else if l.isBid then AddAt(m0[tick := WithoutKOBid(b, l.time)], b.tick + b.knockoutBidWidth, b.knockoutBidLiq, l.time)
    else AddAt(m0[tick := WithoutKOAsk(b, l.time)], b.tick - b.knockoutAskWidth, b.knockoutAskLiq, l.time)
  }

  // What a liquidity change does to the curve; None when it is out of time order, which ends the
  // process.
  function Update(c: Curve, l: LiqChange): Option<Curve> {
    var ambient := if l.positionType.Ambient? then c.ambientLiq + Signed(l) else c.ambientLiq;
    var updated :=
      match l.changeType
      case Mint => UserLiq(c.bumps, l)
      case Burn => UserLiq(c.bumps, l)
      case Cross => KOCross(c.bumps, l)
      case _ => Some(c.bumps);
    match updated
    case None => None
    case Some(m) => Some(Curve(ambient, m))
  }

  function Run(es: seq<LiqChange>): Option<Curve> {
    if es == [] then Some(NEW_CURVE)
    else
      match Run(es[..|es| - 1])
      case None => None
      case Some(c) => Update(c, es[|es| - 1])
  }

  // Reading the curve: a tick without a bump has no delta.
  function Delta(m: Bumps, t: int): real {
    if t in m then m[t].liquidityDelta else 0.0
  }

  function KOBidLiq(m: Bumps, t: int): real {
    if t in m then m[t].knockoutBidLiq else 0.0
  }

  function KOAskLiq(m: Bumps, t: int): real {
    if t in m then m[t].knockoutAskLiq else 0.0
  }

  function KOBidWidth(m: Bumps, t: int): int {
    if t in m then m[t].knockoutBidWidth else 0
  }

  function KOAskWidth(m: Bumps, t: int): int {
    if t in m then m[t].knockoutAskWidth else 0
  }

  ghost predicate Keyed(m: Bumps) {
    forall t :: t in m ==> m[t].tick == t
  }

  // ---------------------------------------------------------------------------------------------
  // The ledger: what is open, order by order

  datatype Side = Range | KOBid | KOAsk
  datatype Lot = Lot(bid: int, ask: int, side: Side, liq: real)

  function SideOf(l: LiqChange): Side {
    if !l.positionType.Knockout? then Range else if l.isBid then KOBid else KOAsk
  }

  // What a mint opens; a burn opens one of negative liquidity.
  function LotOf(l: LiqChange): Lot {
    Lot(l.bidTick, l.askTick, SideOf(l), Signed(l))
  }

  predicate CrossedBy(x: Lot, l: LiqChange) {
    if l.isBid then x.side.KOBid? && x.bid == l.bidTick else x.side.KOAsk? && x.ask == l.askTick
  }

  function Uncrossed(lots: seq<Lot>, l: LiqChange): seq<Lot> {
    if lots == [] then []
    else
      var rest, x := Uncrossed(lots[..|lots| - 1], l), lots[|lots| - 1];
      if CrossedBy(x, l) then rest else rest + [x]
  }

  // A mint opens a lot, a burn one of negative liquidity, and a cross closes every knockout lot
  // of its side and tick. Ambient liquidity has no place on the curve.
  function Booked(lots: seq<Lot>, l: LiqChange): seq<Lot> {
    match l.changeType
    case Mint => if l.positionType.Ambient? then lots else lots + [LotOf(l)]
    case Burn => if l.positionType.Ambient? then lots else lots + [LotOf(l)]
    case Cross => Uncrossed(lots, l)
    case _ => lots
  }

  function Ledger(es: seq<LiqChange>): seq<Lot> {
    if es == [] then [] else Booked(Ledger(es[..|es| - 1]), es[|es| - 1])
  }

  // Sums over lots.
  function Opens(lots: seq<Lot>, t: int): real {
    if lots == [] then 0.0
    else Opens(lots[..|lots| - 1], t) + if lots[|lots| - 1].bid == t then lots[|lots| - 1].liq else 0.0
  }

  function Closes(lots: seq<Lot>, t: int): real {
    if lots == [] then 0.0
    else Closes(lots[..|lots| - 1], t) + if lots[|lots| - 1].ask == t then lots[|lots| - 1].liq else 0.0
  }

  // The knockout liquidity of a side anchored at tick t: bids at their bid, asks at their ask.
  function Anchored(lots: seq<Lot>, side: Side, t: int): real {
    if lots == [] then 0.0
    else
      var x := lots[|lots| - 1];
      Anchored(lots[..|lots| - 1], side, t) + if x.side == side && Anchor(x) == t then x.liq else 0.0
  }

  // ... of which the other end is at tick u.
  function Joined(lots: seq<Lot>, side: Side, t: int, u: int): real {
    if lots == [] then 0.0
    else
      var x := lots[|lots| - 1];
      Joined(lots[..|lots| - 1], side, t, u) + if x.side == side && Anchor(x) == t && Join(x) == u then x.liq else 0.0
  }

  function Anchor(x: Lot): int {
    if x.side.KOAsk? then x.ask else x.bid
  }

  function Join(x: Lot): int {
    if x.side.KOAsk? then x.bid else x.ask
  }

  // ---------------------------------------------------------------------------------------------
  // Agreement

  // What the curve says of tick t is what the ledger says.
  predicate AgreesAt(m: Bumps, lots: seq<Lot>, t: int) {
    && Delta(m, t) == Opens(lots, t) - Closes(lots, t)
    && KOBidLiq(m, t) == Anchored(lots, KOBid, t)
    && KOAskLiq(m, t) == -Anchored(lots, KOAsk, t)
  }

  ghost predicate Agrees(m: Bumps, lots: seq<Lot>) {
    Keyed(m) && forall t :: AgreesAt(m, lots, t)
  }

  // The tick a cross joins: the one the latest order at its tick reached to.
  function JoinTick(m: Bumps, l: LiqChange): int {
    if l.isBid then l.bidTick + KOBidWidth(m, l.bidTick) else l.askTick - KOAskWidth(m, l.askTick)
  }

  function CrossSide(l: LiqChange): Side {
    if l.isBid then KOBid else KOAsk
  }

  function CrossTick(l: LiqChange): int {
    if l.isBid then l.bidTick else l.askTick
  }

  // Of the orders a cross closes, none reach to another tick than j, or those that do cancel out.
  ghost predicate OneJoin(lots: seq<Lot>, l: LiqChange, j: int) {
    forall u :: u != j ==> Joined(lots, CrossSide(l), CrossTick(l), u) == 0.0
  }

  // ---------------------------------------------------------------------------------------------
  // Steps of the curve, tick by tick

  function When(b: bool, x: real): real {
    if b then x else 0.0
  }

  // m' is m, with `delta` more at `tick`, and nothing else different but times and empty bumps.
  ghost predicate Adds(m: Bumps, m': Bumps, tick: int, delta: real) {
    && Keyed(m')
    && (forall t :: Delta(m', t) == Delta(m, t) + When(t == tick, delta))
    && SameKnockouts(m, m')
  }

  ghost predicate SameKnockouts(m: Bumps, m': Bumps) {
    && (forall t :: KOBidLiq(m', t) == KOBidLiq(m, t) && KOBidWidth(m', t) == KOBidWidth(m, t))
    && (forall t :: KOAskLiq(m', t) == KOAskLiq(m, t) && KOAskWidth(m', t) == KOAskWidth(m, t))
  }

  ghost predicate UpdatedBy(m: Bumps, time: int) {
    forall t :: t in m ==> m[t].latestUpdateTime <= time
  }

  lemma AddAtAdds(m: Bumps, tick: int, delta: real, time: int)
    requires Keyed(m)
    ensures AddAt(m, tick, delta, time).Some? <==> time >= (if tick in m then m[tick].latestUpdateTime else 0)
    ensures AddAt(m, tick, delta, time).Some? ==> Adds(m, AddAt(m, tick, delta, time).value, tick, delta)
    ensures AddAt(m, tick, delta, time).Some? ==> AddAt(m, tick, delta, time).value.Keys == m.Keys + {tick}
    ensures UpdatedBy(m, time) && time >= 0 ==>
      AddAt(m, tick, delta, time).Some? && UpdatedBy(AddAt(m, tick, delta, time).value, time)
  {
  }

  lemma MaterializeAdds(m: Bumps, tick: int)
    requires Keyed(m)
    ensures var m' := Materialize(m, tick);
      && Keyed(m') && SameKnockouts(m, m') && (forall t :: Delta(m', t) == Delta(m, t))
      && m'.Keys == m.Keys + {tick}
      && forall time :: time >= 0 && UpdatedBy(m, time) ==> UpdatedBy(m', time)
  {
  }

  lemma BetweenAdds(m: Bumps, l: LiqChange)
    requires Keyed(m)
    ensures AddBetween(m, l).Some? ==>
      var n, s := AddBetween(m, l).value, Signed(l);
      && Keyed(n) && SameKnockouts(m, n)
      && (forall t :: Delta(n, t) == Delta(m, t) + When(t == l.bidTick, s) - When(t == l.askTick, s))
    ensures UpdatedBy(m, l.time) && l.time >= 0 ==> AddBetween(m, l).Some? && UpdatedBy(AddBetween(m, l).value, l.time)
  {
    hide AddAt, Materialize;
    var n := Materialize(m, l.bidTick);
    var m0 := Materialize(n, l.askTick);
    MaterializeAdds(m, l.bidTick);
    MaterializeAdds(n, l.askTick);
    AddAtAdds(m0, l.bidTick, Signed(l), l.time);
    if AddAt(m0, l.bidTick, Signed(l), l.time).Some? {
      AddAtAdds(AddAt(m0, l.bidTick, Signed(l), l.time).value, l.askTick, -Signed(l), l.time);
    }
  }

  lemma KnockoutJoins(m: Bumps, tick: int, isBid: bool, delta: real, join: int, time: int)
    requires Keyed(m) && tick in m
    ensures var n := m[tick := if isBid then WithKOBid(m[tick], delta, join) else WithKOAsk(m[tick], delta, join)];
      && Keyed(n) && (UpdatedBy(m, time) ==> UpdatedBy(n, time))
      && (forall t :: Delta(n, t) == Delta(m, t))
      && (forall t :: KOBidLiq(n, t) == KOBidLiq(m, t) + When(isBid && t == tick, delta))
      && (forall t :: KOAskLiq(n, t) == KOAskLiq(m, t) + When(!isBid && t == tick, delta))
      && (forall t :: KOBidWidth(n, t) == if isBid && t == tick then join - tick else KOBidWidth(m, t))
      && (forall t :: KOAskWidth(n, t) == if !isBid && t == tick then tick - join else KOAskWidth(m, t))
  {
    var n := m[tick := if isBid then WithKOBid(m[tick], delta, join) else WithKOAsk(m[tick], delta, join)];
    forall t
      ensures KOBidLiq(n, t) == KOBidLiq(m, t) + When(isBid && t == tick, delta)
      ensures KOAskLiq(n, t) == KOAskLiq(m, t) + When(!isBid && t == tick, delta)
      ensures KOBidWidth(n, t) == if isBid && t == tick then join - tick else KOBidWidth(m, t)
      ensures KOAskWidth(n, t) == if !isBid && t == tick then tick - join else KOAskWidth(m, t)
    {
      if t == tick { assert n[t] == if isBid then WithKOBid(m[tick], delta, join) else WithKOAsk(m[tick], delta, join); }
    }
  }

  // A mint or burn between two ticks.
  lemma UserLiqAdds(m: Bumps, l: LiqChange)
    requires Keyed(m)
    ensures UserLiq(m, l).Some? ==>
      var m', s := UserLiq(m, l).value, if l.changeType.Burn? then -l.magn else l.magn;
      var bid, ask := l.positionType.Knockout? && l.isBid, l.positionType.Knockout? && !l.isBid;
      && Keyed(m') && l.bidTick in m' && l.askTick in m'
      && (forall t :: Delta(m', t) == Delta(m, t) + When(t == l.bidTick, s) - When(t == l.askTick, s))
      && (forall t :: KOBidLiq(m', t) == KOBidLiq(m, t) + When(bid && t == l.bidTick, s))
      && (forall t :: KOAskLiq(m', t) == KOAskLiq(m, t) - When(ask && t == l.askTick, s))
      && (forall t :: KOBidWidth(m', t) == if bid && t == l.bidTick then l.askTick - l.bidTick else KOBidWidth(m, t))
      && (forall t :: KOAskWidth(m', t) == if ask && t == l.askTick then l.askTick - l.bidTick else KOAskWidth(m, t))
    ensures UpdatedBy(m, l.time) && l.time >= 0 ==> UserLiq(m, l).Some? && UpdatedBy(UserLiq(m, l).value, l.time)
  {
    hide AddBetween, UpdatedBy, WithKOBid, WithKOAsk;
    BetweenAdds(m, l);
    if AddBetween(m, l).Some? && l.positionType.Knockout? {
      var n := AddBetween(m, l).value;
      if l.isBid {
        KnockoutJoins(n, l.bidTick, true, Signed(l), l.askTick, l.time);
      } else {
        KnockoutJoins(n, l.askTick, false, -Signed(l), l.bidTick, l.time);
      }
      var m' := UserLiq(m, l).value;
      forall t
        ensures KOBidWidth(m', t) == if l.isBid && t == l.bidTick then l.askTick - l.bidTick else KOBidWidth(m, t)
        ensures KOAskWidth(m', t) == if !l.isBid && t == l.askTick then l.askTick - l.bidTick else KOAskWidth(m, t)
      {
        assert KOBidLiq(n, t) == KOBidLiq(m, t) && KOAskLiq(n, t) == KOAskLiq(m, t);
      }
    }
  }

  // What an event does to the ledger: a mint opens an order of its liquidity between its ticks, a
  // burn one of as much less than none, a cross closes the knockout orders of its side and tick,
  // and everything else leaves the orders alone. Ambient liquidity goes up by mints and down by burns.
  lemma {:induction false} LedgerGoes(es: seq<LiqChange>, l: LiqChange)
    ensures var lots, next := Ledger(es), Ledger(es + [l]);
      var side := if !l.positionType.Knockout? then Range else if l.isBid then KOBid else KOAsk;
      match l.changeType
      case Mint => next == lots + if l.positionType.Ambient? then [] else [Lot(l.bidTick, l.askTick, side, l.magn)]
      case Burn => next == lots + if l.positionType.Ambient? then [] else [Lot(l.bidTick, l.askTick, side, -l.magn)]
      case Cross =>
        && |next| <= |lots|
        && forall x :: x in next <==>
             x in lots && !(if l.isBid then x.side == KOBid && x.bid == l.bidTick else x.side == KOAsk && x.ask == l.askTick)
      case _ => next == lots
    ensures AmbientTotal(es + [l]) == AmbientTotal(es)
      + if !l.positionType.Ambient? then 0.0 else if l.changeType.Burn? then -l.magn else l.magn
  {
    assert (es + [l])[..|es|] == es;
    if l.changeType.Cross? { StillOpen(Ledger(es), l); }
  }

  lemma {:induction false} StillOpen(lots: seq<Lot>, l: LiqChange)
    ensures |Uncrossed(lots, l)| <= |lots|
    ensures forall x :: x in Uncrossed(lots, l) <==>
      x in lots && !(if l.isBid then x.side == KOBid && x.bid == l.bidTick else x.side == KOAsk && x.ask == l.askTick)
  {
    if lots != [] {
      StillOpen(lots[..|lots| - 1], l);
      assert lots == lots[..|lots| - 1] + [lots[|lots| - 1]];
    }
  }

  lemma KnockoutLeaves(m: Bumps, tick: int, isBid: bool, time: int)
    requires Keyed(m) && tick in m
    ensures var n := m[tick := if isBid then WithoutKOBid(m[tick], time) else WithoutKOAsk(m[tick], time)];
      var liq := if isBid then m[tick].knockoutBidLiq else m[tick].knockoutAskLiq;
      && Keyed(n) && (UpdatedBy(m, time) ==> UpdatedBy(n, time))
      && (forall t :: Delta(n, t) == Delta(m, t) - When(t == tick, liq))
      && (forall t :: KOBidLiq(n, t) == if isBid && t == tick then 0.0 else KOBidLiq(m, t))
      && (forall t :: KOAskLiq(n, t) == if !isBid && t == tick then 0.0 else KOAskLiq(m, t))
      && (forall t :: KOBidWidth(n, t) == if isBid && t == tick then 0 else KOBidWidth(m, t))
      && (forall t :: KOAskWidth(n, t) == if !isBid && t == tick then 0 else KOAskWidth(m, t))
  {
    var n := m[tick := if isBid then WithoutKOBid(m[tick], time) else WithoutKOAsk(m[tick], time)];
    forall t
      ensures KOBidLiq(n, t) == if isBid && t == tick then 0.0 else KOBidLiq(m, t)
      ensures KOAskLiq(n, t) == if !isBid && t == tick then 0.0 else KOAskLiq(m, t)
      ensures KOBidWidth(n, t) == if isBid && t == tick then 0 else KOBidWidth(m, t)
      ensures KOAskWidth(n, t) == if !isBid && t == tick then 0 else KOAskWidth(m, t)
    {
      if t == tick { assert n[t] == if isBid then WithoutKOBid(m[tick], time) else WithoutKOAsk(m[tick], time); }
    }
  }

  // A cross takes the knockout liquidity of its tick off the curve, and puts as much back where
  // the latest order at that tick joined.
  lemma KOCrossMoves(m: Bumps, l: LiqChange)
    requires Keyed(m)
    ensures KOCross(m, l).Some? ==>
      var m', tick, join := KOCross(m, l).value, CrossTick(l), JoinTick(m, l);
      var liq := if l.isBid then KOBidLiq(m, tick) else KOAskLiq(m, tick);
      && Keyed(m')
      && (forall t :: Delta(m', t) == Delta(m, t) - When(t == tick, liq) + When(t == join, liq))
      && (forall t :: KOBidLiq(m', t) == if l.isBid && t == tick then 0.0 else KOBidLiq(m, t))
      && (forall t :: KOAskLiq(m', t) == if !l.isBid && t == tick then 0.0 else KOAskLiq(m, t))
      && (forall t :: KOBidWidth(m', t) == if l.isBid && t == tick then 0 else KOBidWidth(m, t))
      && (forall t :: KOAskWidth(m', t) == if !l.isBid && t == tick then 0 else KOAskWidth(m, t))
    ensures UpdatedBy(m, l.time) && l.time >= 0 ==> KOCross(m, l).Some? && UpdatedBy(KOCross(m, l).value, l.time)
  {
    hide AddAt, Materialize;
    var tick := CrossTick(l);
    var m0 := Materialize(m, tick);
    MaterializeAdds(m, tick);
    var b := m0[tick];
    var m1 := m0[tick := if l.isBid then WithoutKOBid(b, l.time) else WithoutKOAsk(b, l.time)];
    KnockoutLeaves(m0, tick, l.isBid, l.time);
    assert UpdatedBy(m0, l.time) ==> b.latestUpdateTime <= l.time;
    hide UpdatedBy, WithoutKOBid, WithoutKOAsk;
    AddAtAdds(m1, JoinTick(m, l), if l.isBid then b.knockoutBidLiq else b.knockoutAskLiq, l.time);
  }

  // ---------------------------------------------------------------------------------------------
  // Steps of the ledger

  lemma {:induction false} BookedSums(lots: seq<Lot>, x: Lot, t: int)
    ensures Opens(lots + [x], t) == Opens(lots, t) + When(x.bid == t, x.liq)
    ensures Closes(lots + [x], t) == Closes(lots, t) + When(x.ask == t, x.liq)
    ensures Anchored(lots + [x], KOBid, t) == Anchored(lots, KOBid, t) + When(x.side.KOBid? && x.bid == t, x.liq)
    ensures Anchored(lots + [x], KOAsk, t) == Anchored(lots, KOAsk, t) + When(x.side.KOAsk? && x.ask == t, x.liq)
  {
    assert (lots + [x])[..|lots|] == lots;
  }

  lemma {:induction false} BookedAnchored(lots: seq<Lot>, x: Lot, side: Side, t: int)
    ensures Anchored(lots + [x], side, t) == Anchored(lots, side, t) + When(x.side == side && Anchor(x) == t, x.liq)
  {
    assert (lots + [x])[..|lots|] == lots;
  }

  lemma {:induction false} JoinedAppend(lots: seq<Lot>, x: Lot, side: Side, t: int, u: int)
    ensures Joined(lots + [x], side, t, u) == Joined(lots, side, t, u) + When(x.side == side && Anchor(x) == t && Join(x) == u, x.liq)
  {
    assert (lots + [x])[..|lots|] == lots;
  }

  lemma {:induction false} UncrossedOpens(lots: seq<Lot>, l: LiqChange, t: int)
    ensures var side, tick := CrossSide(l), CrossTick(l);
      Opens(Uncrossed(lots, l), t) == Opens(lots, t) -
        if l.isBid then When(t == tick, Anchored(lots, side, tick)) else Joined(lots, side, tick, t)
  {
    if lots != [] {
      var init, x := lots[..|lots| - 1], lots[|lots| - 1];
      UncrossedOpens(init, l, t);
      hide Opens, Anchored, Joined, Closes;
      assert lots == init + [x];
      BookedSums(init, x, t);
      BookedAnchored(init, x, CrossSide(l), CrossTick(l));
      JoinedAppend(init, x, CrossSide(l), CrossTick(l), t);
      BookedSums(Uncrossed(init, l), x, t);
    }
  }

  lemma {:induction false} UncrossedCloses(lots: seq<Lot>, l: LiqChange, t: int)
    ensures var side, tick := CrossSide(l), CrossTick(l);
      Closes(Uncrossed(lots, l), t) == Closes(lots, t) -
        if l.isBid then Joined(lots, side, tick, t) else When(t == tick, Anchored(lots, side, tick))
  {
    if lots != [] {
      var init, x := lots[..|lots| - 1], lots[|lots| - 1];
      UncrossedCloses(init, l, t);
      hide Opens, Anchored, Joined, Closes;
      assert lots == init + [x];
      BookedSums(init, x, t);
      BookedAnchored(init, x, CrossSide(l), CrossTick(l));
      JoinedAppend(init, x, CrossSide(l), CrossTick(l), t);
      BookedSums(Uncrossed(init, l), x, t);
    }
  }

  lemma {:induction false} UncrossedAnchored(lots: seq<Lot>, l: LiqChange, side: Side, t: int)
    requires side != Range
    ensures Anchored(Uncrossed(lots, l), side, t) ==
      if side == CrossSide(l) && t == CrossTick(l) then 0.0 else Anchored(lots, side, t)
  {
    if lots != [] {
      var init, x := lots[..|lots| - 1], lots[|lots| - 1];
      UncrossedAnchored(init, l, side, t);
      hide Anchored;
      assert lots == init + [x];
      BookedAnchored(init, x, side, t);
      BookedAnchored(Uncrossed(init, l), x, side, t);
    }
  }

  // The orders at a tick that join elsewhere than at j.
  function OffJoin(lots: seq<Lot>, side: Side, t: int, j: int): real {
    if lots == [] then 0.0
    else
      var x := lots[|lots| - 1];
      OffJoin(lots[..|lots| - 1], side, t, j) + When(x.side == side && Anchor(x) == t && Join(x) != j, x.liq)
  }

  function WithoutJoin(lots: seq<Lot>, side: Side, t: int, u: int): (rest: seq<Lot>)
    ensures |rest| <= |lots|
  {
    if lots == [] then []
    else
      var rest, x := WithoutJoin(lots[..|lots| - 1], side, t, u), lots[|lots| - 1];
      if x.side == side && Anchor(x) == t && Join(x) == u then rest else rest + [x]
  }

  lemma {:induction false} OffJoinAppend(lots: seq<Lot>, x: Lot, side: Side, t: int, j: int)
    ensures OffJoin(lots + [x], side, t, j) == OffJoin(lots, side, t, j) + When(x.side == side && Anchor(x) == t && Join(x) != j, x.liq)
  {
    assert (lots + [x])[..|lots|] == lots;
  }

  lemma {:induction false} WithoutJoinOff(lots: seq<Lot>, side: Side, t: int, u: int, j: int)
    requires u != j
    ensures OffJoin(WithoutJoin(lots, side, t, u), side, t, j) == OffJoin(lots, side, t, j) - Joined(lots, side, t, u)
  {
    if lots != [] {
      var init, x := lots[..|lots| - 1], lots[|lots| - 1];
      WithoutJoinOff(init, side, t, u, j);
      hide OffJoin, Joined;
      assert lots == init + [x];
      OffJoinAppend(init, x, side, t, j);
      JoinedAppend(init, x, side, t, u);
      OffJoinAppend(WithoutJoin(init, side, t, u), x, side, t, j);
    }
  }

  lemma {:induction false} WithoutJoinJoined(lots: seq<Lot>, side: Side, t: int, u: int, v: int)
    ensures Joined(WithoutJoin(lots, side, t, u), side, t, v) == if v == u then 0.0 else Joined(lots, side, t, v)
  {
    if lots != [] {
      var init, x := lots[..|lots| - 1], lots[|lots| - 1];
      WithoutJoinJoined(init, side, t, u, v);
      hide Joined;
      assert lots == init + [x];
      JoinedAppend(init, x, side, t, v);
      JoinedAppend(WithoutJoin(init, side, t, u), x, side, t, v);
    }
  }

  lemma {:induction false} OffJoinSplits(lots: seq<Lot>, side: Side, t: int, j: int)
    ensures Anchored(lots, side, t) == Joined(lots, side, t, j) + OffJoin(lots, side, t, j)
  {
    if lots != [] { OffJoinSplits(lots[..|lots| - 1], side, t, j); }
  }

  lemma {:induction false} NothingOffJoin(lots: seq<Lot>, side: Side, t: int, j: int)
    requires forall u :: u != j ==> Joined(lots, side, t, u) == 0.0
    ensures OffJoin(lots, side, t, j) == 0.0
    decreases |lots|
  {
    if lots != [] {
      var init, x := lots[..|lots| - 1], lots[|lots| - 1];
      if x.side == side && Anchor(x) == t && Join(x) != j {
        var u := Join(x);
        var rest := WithoutJoin(lots, side, t, u);
        WithoutJoinOff(lots, side, t, u, j);
        forall v | v != j ensures Joined(rest, side, t, v) == 0.0 {
          WithoutJoinJoined(lots, side, t, u, v);
        }
        NothingOffJoin(rest, side, t, j);
      } else {
        forall u | u != j ensures Joined(init, side, t, u) == 0.0 {
          assert Joined(lots, side, t, u) == Joined(init, side, t, u);
        }
        NothingOffJoin(init, side, t, j);
      }
    }
  }

  // ---------------------------------------------------------------------------------------------
  // Exactly when a cross keeps curve and ledger in agreement

  lemma {:induction false} CrossAt(m: Bumps, lots: seq<Lot>, l: LiqChange, t: int)
    requires Agrees(m, lots) && KOCross(m, l).Some?
    ensures AgreesAt(KOCross(m, l).value, Uncrossed(lots, l), t) <==>
      Joined(lots, CrossSide(l), CrossTick(l), t) ==
        When(t == JoinTick(m, l), Anchored(lots, CrossSide(l), CrossTick(l)))
  {
    hide KOCross, Uncrossed, Opens, Closes, Anchored, Joined;
    KOCrossMoves(m, l);
    UncrossedOpens(lots, l, t);
    UncrossedCloses(lots, l, t);
    UncrossedAnchored(lots, l, KOBid, t);
    UncrossedAnchored(lots, l, KOAsk, t);
    assert AgreesAt(m, lots, t) && AgreesAt(m, lots, CrossTick(l));
  }

  // A cross is right if and only if the orders it closes reach, net, to one tick: the one the
  // latest of them reached to.
  lemma {:induction false} CrossIsRightExactly(m: Bumps, lots: seq<Lot>, l: LiqChange)
    requires Agrees(m, lots) && KOCross(m, l).Some?
    ensures Agrees(KOCross(m, l).value, Uncrossed(lots, l)) <==> OneJoin(lots, l, JoinTick(m, l))
  {
    hide KOCross, Uncrossed, Opens, Closes, Anchored, Joined;
    var m', rest, side, tick, j := KOCross(m, l).value, Uncrossed(lots, l), CrossSide(l), CrossTick(l), JoinTick(m, l);
    KOCrossMoves(m, l);
    if OneJoin(lots, l, j) {
      NothingOffJoin(lots, side, tick, j);
      OffJoinSplits(lots, side, tick, j);
      forall t ensures AgreesAt(m', rest, t) { CrossAt(m, lots, l, t); }
    }
    if Agrees(m', rest) {
      forall u | u != j ensures Joined(lots, side, tick, u) == 0.0 {
        assert AgreesAt(m', rest, u);
        CrossAt(m, lots, l, u);
      }
    }
  }

  // A mint or burn of a range or knockout order is always right.
  lemma UserLiqIsRight(m: Bumps, lots: seq<Lot>, l: LiqChange)
    requires Agrees(m, lots) && UserLiq(m, l).Some? && !l.positionType.Ambient?
    ensures Agrees(UserLiq(m, l).value, lots + [LotOf(l)])
  {
    hide UserLiq, Opens, Closes, Anchored;
    UserLiqAdds(m, l);
    var x := LotOf(l);
    forall t ensures AgreesAt(UserLiq(m, l).value, lots + [x], t) {
      BookedSums(lots, x, t);
      assert AgreesAt(m, lots, t);
    }
  }

  // An ambient mint or burn goes through the same path and puts bumps on the curve, which cancel
  // exactly when its ticks are the same, or it is of no liquidity.
  lemma AmbientIsRightExactly(m: Bumps, lots: seq<Lot>, l: LiqChange)
    requires Agrees(m, lots) && UserLiq(m, l).Some? && l.positionType.Ambient?
    ensures l.bidTick in UserLiq(m, l).value && l.askTick in UserLiq(m, l).value
    ensures Agrees(UserLiq(m, l).value, lots) <==> (l.bidTick == l.askTick || l.magn == 0.0)
  {
    hide UserLiq, Opens, Closes, Anchored;
    UserLiqAdds(m, l);
    var m' := UserLiq(m, l).value;
    assert AgreesAt(m, lots, l.bidTick);
    if l.bidTick == l.askTick || l.magn == 0.0 {
      forall t ensures AgreesAt(m', lots, t) { assert AgreesAt(m, lots, t); }
    } else {
      assert !AgreesAt(m', lots, l.bidTick);
    }
  }

  // ---------------------------------------------------------------------------------------------
  // Whole runs

  predicate TimeOrdered(es: seq<LiqChange>) {
    es == [] ||
    (es[|es| - 1].time >= 0 && (|es| > 1 ==> es[|es| - 2].time <= es[|es| - 1].time) && TimeOrdered(es[..|es| - 1]))
  }

  function AmbientTotal(es: seq<LiqChange>): real {
    if es == [] then 0.0
    else AmbientTotal(es[..|es| - 1]) + When(es[|es| - 1].positionType.Ambient?, Signed(es[|es| - 1]))
  }

  // The width of the latest knockout order placed or burned at a tick since it was last crossed.
  function LatestWidth(es: seq<LiqChange>, side: Side, t: int): int {
    if es == [] then 0
    else
      var l := es[|es| - 1];
      if l.changeType.Cross? && CrossSide(l) == side && CrossTick(l) == t then 0
      else if (l.changeType.Mint? || l.changeType.Burn?) && SideOf(l) == side && Anchor(LotOf(l)) == t then l.askTick - l.bidTick
      else LatestWidth(es[..|es| - 1], side, t)
  }

  // The tick a cross after the run es is to join.
  function LatestJoin(es: seq<LiqChange>, side: Side, t: int): int {
    if side.KOAsk? then t - LatestWidth(es, side, t) else t + LatestWidth(es, side, t)
  }

  // When the event l after the run es keeps curve and ledger in agreement: the orders a cross
  // closes reach, net, to no tick but that of the latest of them, and ambient liquidity comes
  // without a range.
  ghost predicate Fits(es: seq<LiqChange>, l: LiqChange) {
    match l.changeType
    case Cross => OneJoin(Ledger(es), l, LatestJoin(es, CrossSide(l), CrossTick(l)))
    case Mint => l.positionType.Ambient? ==> l.bidTick == l.askTick || l.magn == 0.0
    case Burn => l.positionType.Ambient? ==> l.bidTick == l.askTick || l.magn == 0.0
    case _ => true
  }

  ghost predicate AllFit(es: seq<LiqChange>) {
    es == [] || (AllFit(es[..|es| - 1]) && Fits(es[..|es| - 1], es[|es| - 1]))
  }

  // After every event of the run the curve says what the ledger says, at every tick.
  ghost predicate AgreesThroughout(es: seq<LiqChange>) {
    && Run(es).Some? && Agrees(Run(es).value.bumps, Ledger(es))
    && (es != [] ==> AgreesThroughout(es[..|es| - 1]))
  }

  // What every time-ordered run keeps: no bump is later than the last event, each holds the width
  // of the latest order, and ambient liquidity is summed up.
  ghost predicate RunInv(c: Curve, es: seq<LiqChange>) {
    && Keyed(c.bumps) && WidthsAreLatest(c.bumps, es)
    && c.ambientLiq == AmbientTotal(es)
    && UpdatedBy(c.bumps, if es == [] then 0 else es[|es| - 1].time)
  }

  ghost predicate WidthsAreLatest(m: Bumps, es: seq<LiqChange>) {
    forall t :: KOBidWidth(m, t) == LatestWidth(es, KOBid, t) && KOAskWidth(m, t) == LatestWidth(es, KOAsk, t)
  }

  lemma LaterUpdate(m: Bumps, t: int, u: int)
    requires UpdatedBy(m, t) && t <= u
    ensures UpdatedBy(m, u)
  {
  }

  lemma StepRuns(c: Curve, es: seq<LiqChange>)
    requires es != [] && RunInv(c, es[..|es| - 1]) && UpdatedBy(c.bumps, es[|es| - 1].time) && es[|es| - 1].time >= 0
    ensures Update(c, es[|es| - 1]).Some? && RunInv(Update(c, es[|es| - 1]).value, es)
  {
    hide UserLiq, KOCross;
    var l := es[|es| - 1];
    UserLiqAdds(c.bumps, l);
    KOCrossMoves(c.bumps, l);
  }

  lemma {:induction false} RunIs(es: seq<LiqChange>)
    requires TimeOrdered(es)
    ensures Run(es).Some? && RunInv(Run(es).value, es)
  {
    hide RunInv, Update;
    if es == [] {
      NothingRun();
    } else {
      var init := es[..|es| - 1];
      RunIs(init);
      RunUpdated(Run(init).value, init, es[|es| - 1].time);
      StepRuns(Run(init).value, es);
    }
  }

  lemma NothingRun()
    ensures RunInv(NEW_CURVE, [])
  {
  }

  lemma RunUpdated(c: Curve, es: seq<LiqChange>, time: int)
    requires RunInv(c, es) && (if es == [] then 0 else es[|es| - 1].time) <= time
    ensures UpdatedBy(c.bumps, time)
  {
    LaterUpdate(c.bumps, if es == [] then 0 else es[|es| - 1].time, time);
  }

  lemma {:induction false} StepAgreesExactly(c: Curve, es: seq<LiqChange>, l: LiqChange)
    requires RunInv(c, es) && Agrees(c.bumps, Ledger(es)) && Update(c, l).Some?
    ensures Agrees(Update(c, l).value.bumps, Booked(Ledger(es), l)) <==> Fits(es, l)
  {
    hide UserLiq, KOCross, Uncrossed, Joined, Agrees, Ledger, LatestWidth;
    match l.changeType
    case Cross =>
      assert JoinTick(c.bumps, l) == LatestJoin(es, CrossSide(l), CrossTick(l)) by {
        assert KOBidWidth(c.bumps, l.bidTick) == LatestWidth(es, KOBid, l.bidTick);
        assert KOAskWidth(c.bumps, l.askTick) == LatestWidth(es, KOAsk, l.askTick);
      }
      CrossIsRightExactly(c.bumps, Ledger(es), l);
    case Mint => MintOrBurnAgreesExactly(c.bumps, Ledger(es), l);
    case Burn => MintOrBurnAgreesExactly(c.bumps, Ledger(es), l);
    case _ =>
  }

  lemma MintOrBurnAgreesExactly(m: Bumps, lots: seq<Lot>, l: LiqChange)
    requires Agrees(m, lots) && UserLiq(m, l).Some? && (l.changeType.Mint? || l.changeType.Burn?)
    ensures Agrees(UserLiq(m, l).value, Booked(lots, l)) <==>
      (l.positionType.Ambient? ==> l.bidTick == l.askTick || l.magn == 0.0)
  {
    hide UserLiq, Agrees;
    if l.positionType.Ambient? {
      AmbientIsRightExactly(m, lots, l);
    } else {
      UserLiqIsRight(m, lots, l);
    }
  }

  // A time-ordered run never ends the process; and its curve holds, after every event and at every
  // tick, what the open orders put there, if and only if every cross joins the one tick its orders
  // reach to, net, and ambient liquidity comes without a range.
  lemma {:induction false} CurveMatchesLedgerExactly(es: seq<LiqChange>)
    requires TimeOrdered(es)
    ensures Run(es).Some? && Run(es).value.ambientLiq == AmbientTotal(es)
    ensures AgreesThroughout(es) <==> AllFit(es)
  {
    RunIs(es);
    if es == [] {
      NothingOpen();
    } else {
      var init := es[..|es| - 1];
      CurveMatchesLedgerExactly(init);
      hide RunInv, Update, Agrees, Fits, Booked;
      if AllFit(init) {
        RunIs(init);
        StepAgreesExactly(Run(init).value, init, es[|es| - 1]);
      }
    }
  }

  lemma NothingOpen()
    ensures Agrees(map[], [])
  {
    forall t ensures AgreesAt(map[], [], t) {}
  }

  // Open knockout orders of one side and tick - those not burned again - reach to the same tick.
  ghost predicate SharesWidth(lots: seq<Lot>) {
    forall side: Side, t, u, v ::
      !side.Range? && Joined(lots, side, t, u) != 0.0 && Joined(lots, side, t, v) != 0.0 ==> u == v
  }

  // At every point of the run open knockout orders share their widths, none is placed or burned
  // without liquidity, and ambient liquidity comes without a range.
  ghost predicate Regular(es: seq<LiqChange>) {
    es == [] ||
    (var l := es[|es| - 1];
     && Regular(es[..|es| - 1]) && SharesWidth(Ledger(es))
     && ((l.changeType.Mint? || l.changeType.Burn?) && l.positionType.Knockout? ==> l.magn != 0.0)
     && (l.positionType.Ambient? && (l.changeType.Mint? || l.changeType.Burn?) ==> l.bidTick == l.askTick))
  }

  // What is open reaches as far as the latest order did.
  ghost predicate ReachesLatest(es: seq<LiqChange>) {
    forall side: Side, t, u :: !side.Range? && Joined(Ledger(es), side, t, u) != 0.0 ==> u == LatestJoin(es, side, t)
  }

  lemma {:induction false} UncrossedJoined(lots: seq<Lot>, l: LiqChange, side: Side, t: int, u: int)
    requires !side.Range?
    ensures Joined(Uncrossed(lots, l), side, t, u) ==
      if side == CrossSide(l) && t == CrossTick(l) then 0.0 else Joined(lots, side, t, u)
  {
    if lots != [] {
      var init, x := lots[..|lots| - 1], lots[|lots| - 1];
      UncrossedJoined(init, l, side, t, u);
      hide Joined;
      assert lots == init + [x];
      JoinedAppend(init, x, side, t, u);
      JoinedAppend(Uncrossed(init, l), x, side, t, u);
    }
  }

  lemma {:induction false} StillReachesLatest(es: seq<LiqChange>)
    requires es != [] && Regular(es) && ReachesLatest(es[..|es| - 1])
    ensures ReachesLatest(es)
  {
    hide Joined, Uncrossed;
    var init, l := es[..|es| - 1], es[|es| - 1];
    var lots := Ledger(init);
    forall side: Side, t, u | !side.Range? && Joined(Ledger(es), side, t, u) != 0.0
      ensures u == LatestJoin(es, side, t)
    {
      if l.changeType.Cross? {
        UncrossedJoined(lots, l, side, t, u);
      } else if (l.changeType.Mint? || l.changeType.Burn?) && !l.positionType.Ambient? {
        var v := Join(LotOf(l));
        JoinedAppend(lots, LotOf(l), side, t, u);
        JoinedAppend(lots, LotOf(l), side, t, v);
      }
    }
  }

  lemma {:induction false} RegularFits(es: seq<LiqChange>)
    requires Regular(es)
    ensures AllFit(es) && ReachesLatest(es)
  {
    if es != [] {
      var init := es[..|es| - 1];
      RegularFits(init);
      hide Joined, LatestJoin, Ledger, SharesWidth;
      StillReachesLatest(es);
    }
  }

  // So it is in a run in which open knockout orders share their widths.
  lemma {:induction false} CurveMatchesLedger(es: seq<LiqChange>)
    requires TimeOrdered(es) && Regular(es)
    ensures Run(es).Some? && Agrees(Run(es).value.bumps, Ledger(es)) && Run(es).value.ambientLiq == AmbientTotal(es)
  {
    hide Agrees, Regular, AllFit;
    RegularFits(es);
    CurveMatchesLedgerExactly(es);
  }

  // ---------------------------------------------------------------------------------------------
  // What the curve is for: the liquidity in range at a price tick

  function SumDeltas(m: Bumps, lo: int, x: int): real
    decreases if lo <= x then x - lo + 1 else 0
  {
    if x < lo then 0.0 else SumDeltas(m, lo, x - 1) + Delta(m, x)
  }

  function Covering(lots: seq<Lot>, x: int): real {
    if lots == [] then 0.0
    else
      var y := lots[|lots| - 1];
      Covering(lots[..|lots| - 1], x) + When(y.bid <= x < y.ask, y.liq)
  }

  predicate Within(lots: seq<Lot>, lo: int) {
    lots == [] || (lo <= lots[|lots| - 1].bid <= lots[|lots| - 1].ask && Within(lots[..|lots| - 1], lo))
  }

  lemma CoveringStep(lots: seq<Lot>, lo: int, x: int)
    requires Within(lots, lo)
    ensures Covering(lots, x) - Covering(lots, x - 1) == Opens(lots, x) - Closes(lots, x)
    ensures x < lo ==> Covering(lots, x) == 0.0
  {
    if lots != [] { CoveringStep(lots[..|lots| - 1], lo, x); }
  }

  // The deltas up to a tick add up to the liquidity of the orders that cover it.
  lemma {:induction false} SumCovers(m: Bumps, lots: seq<Lot>, lo: int, x: int)
    requires Agrees(m, lots) && Within(lots, lo)
    ensures SumDeltas(m, lo, x) == Covering(lots, x)
    decreases if lo <= x then x - lo + 1 else 0
  {
    hide Opens, Closes, Anchored, Covering;
    CoveringStep(lots, lo, x);
    if lo <= x {
      SumCovers(m, lots, lo, x - 1);
      assert AgreesAt(m, lots, x);
    }
  }

  // The steps of UserLiq and KOCross on bumps that are there already.
  lemma UserLiqSteps(m: Bumps, l: LiqChange)
    ensures var m0, s := Materialize(Materialize(m, l.bidTick), l.askTick), Signed(l);
      && l.bidTick in m0 && l.askTick in m0
      && UserLiq(m, l) ==
        if l.time < m0[l.bidTick].latestUpdateTime then None
        else
          var m1 := m0[l.bidTick := WithLiquidity(m0[l.bidTick], s, l.time)];
          if l.time < m1[l.askTick].latestUpdateTime then None
          else
            var m2 := m1[l.askTick := WithLiquidity(m1[l.askTick], -s, l.time)];
            if !l.positionType.Knockout? then Some(m2)
            else if l.isBid then Some(m2[l.bidTick := WithKOBid(m2[l.bidTick], s, l.askTick)])
            else Some(m2[l.askTick := WithKOAsk(m2[l.askTick], -s, l.bidTick)])
  {
  }

  lemma KOCrossSteps(m: Bumps, l: LiqChange)
    ensures var tick := CrossTick(l); var m0 := Materialize(m, tick);
      && tick in m0
      && KOCross(m, l) ==
        if l.time < m0[tick].latestUpdateTime then None
        else
          var b := m0[tick];
          var join := if l.isBid then b.tick + b.knockoutBidWidth else b.tick - b.knockoutAskWidth;
          var m1 := Materialize(m0[tick := if l.isBid then WithoutKOBid(b, l.time) else WithoutKOAsk(b, l.time)], join);
          if l.time < m1[join].latestUpdateTime then None
          else Some(m1[join := WithLiquidity(m1[join], if l.isBid then b.knockoutBidLiq else b.knockoutAskLiq, l.time)])
  {
  }

  // ---------------------------------------------------------------------------------------------
  // The objects. A method that would end the process reports `false`.

  class LiquidityBump {
    const tick: int
    var liquidityDelta: real
    var knockoutBidLiq: real
    var knockoutAskLiq: real
    var knockoutBidWidth: int
    var knockoutAskWidth: int
    var latestUpdateTime: int

    constructor (tick: int)
      ensures this.tick == tick && View() == NewBump(tick)
    {
      this.tick := tick;
      liquidityDelta, knockoutBidLiq, knockoutAskLiq := 0.0, 0.0, 0.0;
      knockoutBidWidth, knockoutAskWidth, latestUpdateTime := 0, 0, 0;
    }

    ghost function View(): Bump
      reads this
    {
      Bump(tick, liquidityDelta, knockoutBidLiq, knockoutAskLiq, knockoutBidWidth, knockoutAskWidth, latestUpdateTime)
    }

    method UpdateTime(time: int) returns (ok: bool)
      modifies this`latestUpdateTime
      ensures ok <==> old(latestUpdateTime) <= time
      ensures latestUpdateTime == if ok then time else old(latestUpdateTime)
    {
      if time < latestUpdateTime {
        return false;
      }
      latestUpdateTime := time;
      return true;
    }

    method IncrLiquidity(liqDelta: real, time: int) returns (ok: bool)
      modifies this
      ensures ok <==> old(latestUpdateTime) <= time
      ensures ok ==> View() == WithLiquidity(old(View()), liqDelta, time)
    {
      ok := UpdateTime(time);
      if ok {
        liquidityDelta := liquidityDelta + liqDelta;
      }
    }

    method IncrKOBid(liqDelta: real, joinTick: int)
      modifies this
      ensures View() == WithKOBid(old(View()), liqDelta, joinTick)
    {
      knockoutBidLiq := knockoutBidLiq + liqDelta;
      knockoutBidWidth := joinTick - tick;
    }

    method IncrKOAsk(liqDelta: real, joinTick: int)
      modifies this
      ensures View() == WithKOAsk(old(View()), liqDelta, joinTick)
    {
      knockoutAskLiq := knockoutAskLiq + liqDelta;
      knockoutAskWidth := tick - joinTick;
    }

    method KnockoutBid(time: int) returns (ok: bool, koLiq: real, joinTick: int)
      modifies this
      ensures ok <==> old(latestUpdateTime) <= time
      ensures ok ==> View() == WithoutKOBid(old(View()), time)
      ensures ok ==> koLiq == old(knockoutBidLiq) && joinTick == tick + old(knockoutBidWidth)
    {
      ok := UpdateTime(time);
      koLiq, joinTick := 0.0, 0;
      if ok {
        koLiq := knockoutBidLiq;
        liquidityDelta := liquidityDelta - koLiq;
        joinTick := tick + knockoutBidWidth;
        knockoutBidWidth := 0;
        knockoutBidLiq := 0.0;
      }
    }

    method KnockoutAsk(time: int) returns (ok: bool, koLiq: real, joinTick: int)
      modifies this
      ensures ok <==> old(latestUpdateTime) <= time
      ensures ok ==> View() == WithoutKOAsk(old(View()), time)
      ensures ok ==> koLiq == old(knockoutAskLiq) && joinTick == tick - old(knockoutAskWidth)
    {
      ok := UpdateTime(time);
      koLiq, joinTick := 0.0, 0;
      if ok {
        koLiq := knockoutAskLiq;
        liquidityDelta := liquidityDelta - koLiq;
        joinTick := tick - knockoutAskWidth;
        knockoutAskWidth := 0;
        knockoutAskLiq := 0.0;
      }
    }
  }

  class LiquidityCurve {
    var ambientLiq: real
    var bumps: map<int, LiquidityBump>

    // Every bump is filed under its own tick, so no two ticks share one.
    ghost predicate Valid()
      reads this
    {
      forall t :: t in bumps ==> bumps[t].tick == t
    }

    ghost function View(): Curve
      reads this, bumps.Values
    {
      Curve(ambientLiq, map t | t in bumps :: bumps[t].View())
    }

    constructor ()
      ensures Valid() && View() == NEW_CURVE
    {
      ambientLiq, bumps := 0.0, map[];
    }

    // A change of one bump changes the view at its tick.
    twostate lemma OneBump(t: int)
      requires old(Valid()) && bumps == old(bumps) && ambientLiq == old(ambientLiq) && t in bumps
      requires forall u :: u in bumps && u != t ==> bumps[u].View() == old(bumps[u].View())
      ensures View() == old(View()).(bumps := old(View()).bumps[t := bumps[t].View()])
    {
      var m, n := View().bumps, old(View()).bumps[t := bumps[t].View()];
      assert m.Keys == n.Keys;
      forall u | u in m ensures m[u] == n[u] {}
      assert m == n;
    }

    method MaterializeBump(tick: int) returns (bump: LiquidityBump)
      requires Valid()
      modifies this`bumps
      ensures Valid() && tick in bumps && bumps[tick] == bump
      ensures View() == old(View()).(bumps := Materialize(old(View()).bumps, tick))
      ensures forall t :: t in old(bumps) ==> t in bumps && bumps[t] == old(bumps[t])
      ensures forall t :: t in bumps && t !in old(bumps) ==> fresh(bumps[t])
    {
      if tick !in bumps {
        var made := new LiquidityBump(tick);
        bumps := bumps[tick := made];
        assert View().bumps == old(View()).bumps[tick := NewBump(tick)];
      }
      bump := bumps[tick];
      assert View().bumps == Materialize(old(View()).bumps, tick);
    }

    // IncrLiquidity on the bump of a tick, as seen from the curve; likewise below.
    method IncrAt(tick: int, liqDelta: real, time: int) returns (ok: bool)
      requires Valid() && tick in bumps
      modifies bumps[tick]
      ensures Valid()
      ensures ok <==> old(View()).bumps[tick].latestUpdateTime <= time
      ensures ok ==> View() == old(View()).(bumps := old(View()).bumps[tick := WithLiquidity(old(View()).bumps[tick], liqDelta, time)])
    {
      ok := bumps[tick].IncrLiquidity(liqDelta, time);
      OneBump(tick);
    }

    method IncrKOAt(tick: int, isBid: bool, liqDelta: real, joinTick: int)
      requires Valid() && tick in bumps
      modifies bumps[tick]
      ensures Valid()
      ensures var b := old(View()).bumps[tick];
        View() == old(View()).(bumps := old(View()).bumps[tick :=
          if isBid then WithKOBid(b, liqDelta, joinTick) else WithKOAsk(b, liqDelta, joinTick)])
    {
      if isBid {
        bumps[tick].IncrKOBid(liqDelta, joinTick);
      } else {
        bumps[tick].IncrKOAsk(liqDelta, joinTick);
      }
      OneBump(tick);
    }

    method KnockoutAt(tick: int, isBid: bool, time: int) returns (ok: bool, koLiq: real, joinTick: int)
      requires Valid() && tick in bumps
      modifies bumps[tick]
      ensures Valid()
      ensures var b := old(View()).bumps[tick];
        && (ok <==> b.latestUpdateTime <= time)
        && (ok ==>
          && View() == old(View()).(bumps := old(View()).bumps[tick := if isBid then WithoutKOBid(b, time) else WithoutKOAsk(b, time)])
          && koLiq == (if isBid then b.knockoutBidLiq else b.knockoutAskLiq)
          && joinTick == if isBid then b.tick + b.knockoutBidWidth else b.tick - b.knockoutAskWidth)
    {
      if isBid {
        ok, koLiq, joinTick := bumps[tick].KnockoutBid(time);
      } else {
        ok, koLiq, joinTick := bumps[tick].KnockoutAsk(time);
      }
      OneBump(tick);
    }

    method UpdateUserLiq(l: LiqChange) returns (ok: bool)
      requires Valid()
      modifies this`bumps, bumps.Values
      ensures Valid()
      ensures ok <==> UserLiq(old(View()).bumps, l).Some?
      ensures ok ==> View() == old(View()).(bumps := UserLiq(old(View()).bumps, l).value)
    {
      hide UserLiq, Materialize, WithLiquidity, WithKOBid, WithKOAsk, View, Valid;
      UserLiqSteps(View().bumps, l);
      var bidBump := MaterializeBump(l.bidTick);
      var askBump := MaterializeBump(l.askTick);
      var liqMagn := l.magn;
      if l.changeType.Burn? {
        liqMagn := -liqMagn;
      }
      ok := IncrAt(l.bidTick, liqMagn, l.time);
      if !ok { return; }
      ok := IncrAt(l.askTick, -liqMagn, l.time);
      if !ok { return; }
      if l.positionType.Knockout? {
        if l.isBid {
          IncrKOAt(l.bidTick, true, liqMagn, l.askTick);
        } else {
          IncrKOAt(l.askTick, false, -liqMagn, l.bidTick);
        }
      }
    }

    method UpdateKOCross(l: LiqChange) returns (ok: bool)
      requires Valid()
      modifies this`bumps, bumps.Values
      ensures Valid()
      ensures ok <==> KOCross(old(View()).bumps, l).Some?
      ensures ok ==> View() == old(View()).(bumps := KOCross(old(View()).bumps, l).value)
    {
      hide KOCross, Materialize, WithLiquidity, WithoutKOBid, WithoutKOAsk, View, Valid;
      KOCrossSteps(View().bumps, l);
      var koLiq, joinTick;
      if l.isBid {
        var bidBump := MaterializeBump(l.bidTick);
        ok, koLiq, joinTick := KnockoutAt(l.bidTick, true, l.time);
        if !ok { return; }
        var askBump := MaterializeBump(joinTick);
        ok := IncrAt(joinTick, koLiq, l.time);
      } else {
        var askBump := MaterializeBump(l.askTick);
        ok, koLiq, joinTick := KnockoutAt(l.askTick, false, l.time);
        if !ok { return; }
        var bidBump := MaterializeBump(joinTick);
        ok := IncrAt(joinTick, koLiq, l.time);
      }
    }

    method UpdateLiqChange(l: LiqChange) returns (ok: bool)
      requires Valid()
      modifies this, bumps.Values
      ensures Valid()
      ensures ok <==> Update(old(View()), l).Some?
      ensures ok ==> View() == Update(old(View()), l).value
    {
      hide UserLiq, KOCross;
      ok := true;
      if l.positionType.Ambient? {
        var liqMagn := l.magn;
        if l.changeType.Burn? {
          liqMagn := -liqMagn;
        }
        ambientLiq := ambientLiq + liqMagn;
      }
      assert View().bumps == old(View()).bumps;
      if l.changeType.Mint? || l.changeType.Burn? {
        ok := UpdateUserLiq(l);
      }
      if l.changeType.Cross? {
        ok := UpdateKOCross(l);
      }
    }
  }
}
