// The pivot time of each knockout tick and side: the time of the first order placed there since
// the tick was last crossed (applyToKnockout in controller/controller.go, and the pivot map of
// cache/transactors.go).
module PivotTimes {

  datatype ChangeType = Mint | Burn | Cross | Claim | Recover

  // A knockout liquidity change.
  datatype KoChange = KoChange(changeType: ChangeType, time: int, bidTick: int, askTick: int, isBid: bool)

  // The pivot location: bids are filed under their bid tick, asks under their ask tick.
  datatype PivotLoc = PivotLoc(tick: int, isBid: bool)

  function PivotLocOf(l: KoChange): PivotLoc {
    PivotLoc(if l.isBid then l.bidTick else l.askTick, l.isBid)
  }

  // ---------------------------------------------------------------------------------------------
  // The specification

  // The mints at a location since its last cross.
  function Epoch(es: seq<KoChange>, loc: PivotLoc): seq<KoChange> {
    if es == [] then []
    else
      NextEpoch(Epoch(es[..|es| - 1], loc), es[|es| - 1], loc)
  }

  function NextEpoch(mints: seq<KoChange>, l: KoChange, loc: PivotLoc): seq<KoChange> {
    if PivotLocOf(l) != loc then mints
    else if l.changeType.Cross? then []
    else if l.changeType.Mint? then mints + [l]
    else mints
  }

  function PivotTime(es: seq<KoChange>, loc: PivotLoc): int {
    if Epoch(es, loc) == [] then 0 else Epoch(es, loc)[0].time
  }

  predicate TimeOrdered(es: seq<KoChange>) {
    es == [] ||
    (es[|es| - 1].time > 0 && (|es| > 1 ==> es[|es| - 2].time <= es[|es| - 1].time) && TimeOrdered(es[..|es| - 1]))
  }

  predicate PositiveTimes(es: seq<KoChange>) {
    es == [] || (es[|es| - 1].time > 0 && PositiveTimes(es[..|es| - 1]))
  }

  lemma {:induction false} EpochTimes(es: seq<KoChange>, loc: PivotLoc)
    requires TimeOrdered(es)
    ensures Epoch(es, loc) != [] ==> 0 < Epoch(es, loc)[0].time <= es[|es| - 1].time
  {
    if es != [] {
      var init := es[..|es| - 1];
      EpochTimes(init, loc);
      if init != [] { assert init[|init| - 1] == es[|es| - 2]; }
    }
  }

  lemma {:induction false} EpochPositive(es: seq<KoChange>, loc: PivotLoc)
    requires PositiveTimes(es)
    ensures Epoch(es, loc) != [] ==> Epoch(es, loc)[0].time > 0
  {
    if es != [] { EpochPositive(es[..|es| - 1], loc); }
  }

  // A stored pivot time is 0 exactly when nothing was minted since the last cross.
  lemma {:induction false} ZeroExactlyWithoutMint(es: seq<KoChange>, loc: PivotLoc)
    requires TimeOrdered(es)
    ensures PivotTime(es, loc) == 0 <==> Epoch(es, loc) == []
    ensures es != [] ==> 0 <= PivotTime(es, loc) <= es[|es| - 1].time
  {
    EpochTimes(es, loc);
  }

  // The pivot the change number i carries.
  function CarriedPivot(es: seq<KoChange>, i: nat): int
    requires i < |es|
  {
    PivotTime(es[..i + 1], PivotLocOf(es[i]))
  }

  predicate NoCross(es: seq<KoChange>, loc: PivotLoc) {
    es == [] || (!(PivotLocOf(es[|es| - 1]) == loc && es[|es| - 1].changeType.Cross?) && NoCross(es[..|es| - 1], loc))
  }

  // Once open, an epoch keeps its first mint until the next cross.
  lemma {:induction false} EpochGoesOn(a: seq<KoChange>, b: seq<KoChange>, loc: PivotLoc)
    requires Epoch(a, loc) != [] && NoCross(b, loc)
    ensures Epoch(a + b, loc) != [] && Epoch(a + b, loc)[0] == Epoch(a, loc)[0]
  {
    if b == [] {
      assert a + b == a;
    } else {
      assert (a + b)[..|a + b| - 1] == a + b[..|b| - 1];
      EpochGoesOn(a, b[..|b| - 1], loc);
    }
  }

  // All mints at a location between two crosses carry the same pivot, and none a later one than
  // its own time.
  lemma {:induction false} MintsShareTheirPivot(es: seq<KoChange>, i: nat, j: nat)
    requires TimeOrdered(es) && i <= j < |es|
    requires es[i].changeType.Mint? && es[j].changeType.Mint? && PivotLocOf(es[i]) == PivotLocOf(es[j])
    requires NoCross(es[i + 1..j + 1], PivotLocOf(es[i]))
    ensures CarriedPivot(es, i) == CarriedPivot(es, j)
    ensures 0 < CarriedPivot(es, i) <= es[i].time
  {
    var loc := PivotLocOf(es[i]);
    assert es[..i + 1][..i] == es[..i];
    assert Epoch(es[..i + 1], loc) == Epoch(es[..i], loc) + [es[i]];
    assert es[..j + 1] == es[..i + 1] + es[i + 1..j + 1];
    EpochGoesOn(es[..i + 1], es[i + 1..j + 1], loc);
    OrderedPrefix(es, i + 1);
    EpochTimes(es[..i + 1], loc);
  }

  lemma {:induction false} OrderedPrefix(es: seq<KoChange>, n: nat)
    requires TimeOrdered(es) && n <= |es|
    ensures TimeOrdered(es[..n])
  {
    if n < |es| {
      assert es[..|es| - 1][..n] == es[..n];
      OrderedPrefix(es[..|es| - 1], n);
    } else {
      assert es[..n] == es;
    }
  }

  // A cross starts anew: the first mint after it carries its own time.
  lemma FirstMintCarriesItsTime(es: seq<KoChange>, i: nat, j: nat)
    requires i < j < |es| && es[i].changeType.Cross? && es[j].changeType.Mint? && PivotLocOf(es[i]) == PivotLocOf(es[j])
    requires NoMint(es[i + 1..j], PivotLocOf(es[i]))
    ensures CarriedPivot(es, j) == es[j].time
  {
    var loc := PivotLocOf(es[i]);
    assert es[..i + 1][..i] == es[..i];
    assert Epoch(es[..i + 1], loc) == [];
    assert es[..j] == es[..i + 1] + es[i + 1..j];
    EpochStaysShut(es[..i + 1], es[i + 1..j], loc);
    assert es[..j + 1][..j] == es[..j];
  }

  predicate NoMint(es: seq<KoChange>, loc: PivotLoc) {
    es == [] || (!(PivotLocOf(es[|es| - 1]) == loc && es[|es| - 1].changeType.Mint?) && NoMint(es[..|es| - 1], loc))
  }

  lemma {:induction false} EpochStaysShut(a: seq<KoChange>, b: seq<KoChange>, loc: PivotLoc)
    requires Epoch(a, loc) == [] && NoMint(b, loc)
    ensures Epoch(a + b, loc) == []
  {
    if b == [] {
      assert a + b == a;
    } else {
      assert (a + b)[..|a + b| - 1] == a + b[..|b| - 1];
      EpochStaysShut(a, b[..|b| - 1], loc);
    }
  }

  // ---------------------------------------------------------------------------------------------
  // Which mint that is

  // Two changes at one place: bids with the same bid tick, or asks with the same ask tick.
  predicate SamePlace(a: KoChange, b: KoChange) {
    a.isBid == b.isBid && if a.isBid then a.bidTick == b.bidTick else a.askTick == b.askTick
  }

  // Between two points of the run something crossed the place of l.
  predicate CrossedBetween(es: seq<KoChange>, from: int, to: int, l: KoChange) {
    exists j :: from < j < to && 0 <= j < |es| && SamePlace(es[j], l) && es[j].changeType.Cross?
  }

  // Change number k is the mint that opened the epoch which the place of l is in after the first n:
  // nothing has crossed it since, and every mint before it was crossed before it.
  predicate OpenedBy(es: seq<KoChange>, n: nat, l: KoChange, k: nat)
    requires n <= |es|
  {
    && k < n && SamePlace(es[k], l) && es[k].changeType.Mint? && !CrossedBetween(es, k, n, l)
    && forall j :: 0 <= j < k && SamePlace(es[j], l) && es[j].changeType.Mint? ==> CrossedBetween(es, j, k, l)
  }

  lemma SamePlaceIs(a: KoChange, b: KoChange)
    ensures SamePlace(a, b) <==> PivotLocOf(a) == PivotLocOf(b)
  {
  }

  lemma {:induction false} EpochOpens(es: seq<KoChange>, n: nat, l: KoChange) returns (k: nat)
    requires n <= |es|
    ensures Epoch(es[..n], PivotLocOf(l)) != [] ==> OpenedBy(es, n, l, k) && es[k] == Epoch(es[..n], PivotLocOf(l))[0]
    ensures Epoch(es[..n], PivotLocOf(l)) == [] ==>
      forall j :: 0 <= j < n && SamePlace(es[j], l) && es[j].changeType.Mint? ==> CrossedBetween(es, j, n, l)
  {
    var loc := PivotLocOf(l);
    k := 0;
    if n > 0 {
      k := EpochOpens(es, n - 1, l);
      assert es[..n][..n - 1] == es[..n - 1];
      var last := es[n - 1];
      SamePlaceIs(last, l);
      hide SamePlace, PivotLocOf;
      LaterCross(es, n - 1, l);
      if Epoch(es[..n - 1], loc) == [] && Epoch(es[..n], loc) != [] { k := n - 1; }
    }
  }

  lemma LaterCross(es: seq<KoChange>, n: nat, l: KoChange)
    requires n < |es|
    ensures forall j :: 0 <= j < n ==>
      (CrossedBetween(es, j, n + 1, l) <==> CrossedBetween(es, j, n, l) || (SamePlace(es[n], l) && es[n].changeType.Cross?))
    ensures !CrossedBetween(es, n, n + 1, l)
  {
    hide SamePlace;
    forall j | 0 <= j < n
      ensures CrossedBetween(es, j, n + 1, l) <==> CrossedBetween(es, j, n, l) || (SamePlace(es[n], l) && es[n].changeType.Cross?)
    {
      StillCrossed(es, j, n, n + 1, l);
      if SamePlace(es[n], l) && es[n].changeType.Cross? { assert j < n < n + 1; }
      if CrossedBetween(es, j, n + 1, l) {
        var x :| j < x < n + 1 && 0 <= x < |es| && SamePlace(es[x], l) && es[x].changeType.Cross?;
      }
    }
  }

  // A change carries the time of the mint that opened the epoch it comes in, or 0 if no mint at its
  // place has stayed uncrossed.
  lemma PivotIsOpeningMint(es: seq<KoChange>, i: nat)
    requires i < |es|
    ensures forall k :: 0 <= k <= i && OpenedBy(es, i + 1, es[i], k) ==> CarriedPivot(es, i) == es[k].time
    ensures (forall k :: 0 <= k <= i && SamePlace(es[k], es[i]) && es[k].changeType.Mint? ==> CrossedBetween(es, k, i + 1, es[i])) ==>
      CarriedPivot(es, i) == 0
  {
    hide CrossedBetween, SamePlace, PivotLocOf;
    var l := es[i];
    var first := EpochOpens(es, i + 1, l);
    forall k | 0 <= k <= i && OpenedBy(es, i + 1, l, k) ensures CarriedPivot(es, i) == es[k].time {
      if Epoch(es[..i + 1], PivotLocOf(l)) != [] { OneOpens(es, i + 1, l, k, first); }
    }
  }

  lemma OneOpens(es: seq<KoChange>, n: nat, l: KoChange, j: nat, k: nat)
    requires n <= |es| && OpenedBy(es, n, l, j) && OpenedBy(es, n, l, k)
    ensures j == k
  {
    hide SamePlace;
    StillCrossed(es, j, k, n, l);
    StillCrossed(es, k, j, n, l);
  }

  lemma StillCrossed(es: seq<KoChange>, from: int, to: int, later: int, l: KoChange)
    requires to <= later
    ensures CrossedBetween(es, from, to, l) ==> CrossedBetween(es, from, later, l)
  {
  }

  // ---------------------------------------------------------------------------------------------
  // The map

  function LookupIn(times: map<PivotLoc, int>, loc: PivotLoc): int {
    if loc in times then times[loc] else 0
  }

  // Looking a location up gives its pivot time.
  ghost predicate Stores(times: map<PivotLoc, int>, es: seq<KoChange>) {
    forall loc :: LookupIn(times, loc) == PivotTime(es, loc)
  }

  lemma {:induction false} NextStored(times: map<PivotLoc, int>, es: seq<KoChange>, l: KoChange, next: map<PivotLoc, int>)
    requires Stores(times, es) && PositiveTimes(es) && l.time > 0
    requires var loc := PivotLocOf(l);
      next == if l.changeType.Cross? then times[loc := 0]
              else if l.changeType.Mint? && LookupIn(times, loc) == 0 then times[loc := l.time]
              else times
    ensures Stores(next, es + [l])
  {
    forall loc ensures LookupIn(next, loc) == PivotTime(es + [l], loc) {
      assert (es + [l])[..|es|] == es;
      EpochPositive(es, loc);
      assert LookupIn(times, loc) == PivotTime(es, loc);
    }
  }

  class KnockoutPivotTimes {
    var times: map<PivotLoc, int>
    ghost var changes: seq<KoChange>

    ghost predicate Valid()
      reads this
    {
      PositiveTimes(changes) && Stores(times, changes)
    }

    constructor ()
      ensures Valid() && changes == []
    {
      times, changes := map[], [];
    }

    // The time of the first mint at the location since its last cross; 0 exactly if there is none.
    method RetrievePivotTime(loc: PivotLoc) returns (pivotTime: int)
      requires Valid()
      ensures pivotTime == PivotTime(changes, loc)
      ensures pivotTime == 0 <==> Epoch(changes, loc) == []
      ensures pivotTime != 0 ==> pivotTime == Epoch(changes, loc)[0].time
    {
      assert LookupIn(times, loc) == PivotTime(changes, loc);
      EpochPositive(changes, loc);
      if loc in times {
        return times[loc];
      } else {
        return 0;
      }
    }

    method SetPivotTime(loc: PivotLoc, pivotTime: int)
      modifies this`times
      ensures times == old(times)[loc := pivotTime]
    {
      times := times[loc := pivotTime];
    }

    // The first part of applyToKnockout: a cross closes the epoch of its location, the first mint
    // after it opens the next. A change that is not a cross learns its pivot time.
    method ApplyToKnockout(l: KoChange) returns (pivotTime: int)
      requires Valid() && l.time > 0
      modifies this
      ensures Valid() && changes == old(changes) + [l]
      ensures !l.changeType.Cross? ==> pivotTime == PivotTime(changes, PivotLocOf(l))
    {
      ghost var was, before := changes, times;
      assert (was + [l])[..|was|] == was;
      var pivotLoc := PivotLoc(l.bidTick, l.isBid);
      if !l.isBid {
        pivotLoc := PivotLoc(l.askTick, l.isBid);
      }
      if l.changeType.Cross? {
        SetPivotTime(pivotLoc, 0);
        NextStored(before, was, l, times);
        changes := was + [l];
        return 0;
      }
      pivotTime := RetrievePivotTime(pivotLoc);
      if l.changeType.Mint? && pivotTime == 0 {
        SetPivotTime(pivotLoc, l.time);
        pivotTime := l.time;
      }
      NextStored(before, was, l, times);
      changes := was + [l];
    }
  }
}
