// The saga of a knockout book: what every user has resting there, what a cross has knocked out,
// and the view that lists both (model/knockout.go, controller/controller.go,
// controller/workers.go, views/limits.go). The ingestion thread files changes and crosses and
// leaves updates in a queue; a worker takes them off, and the refresher answers, in between.
module KnockoutSagas {
  import opened Basics
  import opened KnockoutMatching

  datatype ChangeType = Mint | Burn | Claim | Recover

  // A change of a user's knockout position. `liq` is the liquidity its flows amount to, when it
  // has flows.
  datatype PosChange = PosChange(changeType: ChangeType, time: int, pivotTime: Option<int>, liq: Option<real>)

  datatype Subplot = Subplot(
    mints: seq<SagaTx>,
    burns: seq<SagaTx>,
    active: int,
    knockedOut: map<int, int>,
    timeFirstMint: int,
    latestUpdateTime: int)

  const NEW_SUBPLOT := Subplot([], [], 0, map[], 0, 0)

  // What the ingestion thread leaves for the worker.
  datatype Update = PosUpdate(user: User, change: PosChange) | CrossUpdate(cross: SagaCross)

  // A change that is filed and sent, whose liquidity the ingestion thread has yet to estimate.
  datatype Filing = Filing(user: User, change: PosChange)

  // `posts` and `alive` are the queries the refresher has been asked for.
  datatype Saga = Saga(
    users: map<User, Subplot>,
    crosses: seq<SagaCross>,
    queue: seq<Update>,
    filing: Option<Filing>,
    posts: set<Cand>,
    alive: set<User>)

  const NEW_SAGA := Saga(map[], [], [], None, {}, {})

  function ForUser(users: map<User, Subplot>, user: User): Subplot {
    if user in users then users[user] else NEW_SUBPLOT
  }

  function KnockedOutAt(p: Subplot, pivotTime: int): int {
    if pivotTime in p.knockedOut then p.knockedOut[pivotTime] else 0
  }

  // ---------------------------------------------------------------------------------------------
  // Steps on values

  // Truncation towards zero.
  function Truncate(x: real): int {
    if x >= 0.0 then x.Floor else -((-x).Floor)
  }

  // The active liquidity as estimated from a change's flows: never negative, and nothing when a
  // burn leaves less than a tenth of itself.
  function Estimate(active: int, l: PosChange): int {
    if l.changeType.Claim? || l.liq.None? then active
    else
      var after := if active + Truncate(l.liq.value) < 0 then 0 else active + Truncate(l.liq.value);
      if l.changeType.Recover? then 0
      else if l.changeType.Burn? && after > 0 && Abs(l.liq.value) * 0.10 > after as real then 0
      else after
  }

  // k is the liquidity x without its fraction.
  predicate WholePart(x: real, k: int) {
    if x >= 0.0 then k as real <= x < k as real + 1.0 else k as real - 1.0 < x <= k as real
  }

  // A mint adds what its flows amount to, without the fraction, and a burn takes as much off, down
  // to nothing, and all there is if that leaves less than a tenth of it; a recovery leaves nothing,
  // and a claim what there is.
  lemma EstimateMeans(active: int, l: PosChange, k: int)
    requires l.liq.Some? && WholePart(l.liq.value, k)
    ensures var after := Estimate(active, l);
      match l.changeType
      case Mint => after == if active + k >= 0 then active + k else 0
      case Burn =>
        var much := if l.liq.value < 0.0 then -l.liq.value else l.liq.value;
        after == if active + k >= 0 && (active + k) as real * 10.0 >= much then active + k else 0
      case Claim => after == active
      case Recover => after == 0
  {
    WholePartIs(l.liq.value, k);
  }

  lemma WholePartIs(x: real, k: int)
    requires WholePart(x, k)
    ensures Truncate(x) == k
  {
    if x >= 0.0 {
      assert x.Floor as real <= x < x.Floor as real + 1.0;
    } else {
      assert (-x).Floor as real <= -x < (-x).Floor as real + 1.0;
    }
  }

  // Ingestion files mints and burns, and estimates the liquidity once they are sent.
  function Filed(p: Subplot, l: PosChange, pivotTime: int): Subplot {
    var tx := SagaTx(l.time, pivotTime);
    p.(mints := if l.changeType.Mint? then p.mints + [tx] else p.mints,
       burns := if l.changeType.Burn? then p.burns + [tx] else p.burns)
  }

  function Estimated(p: Subplot, l: PosChange): Subplot {
    var q := p.(active := Estimate(p.active, l));
    if l.changeType.Recover? && l.liq.Some? && l.pivotTime.Some? then q.(knockedOut := p.knockedOut[l.pivotTime.value := 0])
    else q
  }

  // The worker moves the times on.
  function Timed(p: Subplot, l: PosChange): Subplot {
    p.(latestUpdateTime := if l.time > p.latestUpdateTime then l.time else p.latestUpdateTime,
       timeFirstMint := if p.timeFirstMint == 0 || l.time < p.timeFirstMint then l.time else p.timeFirstMint)
  }

  ghost function CandsOnChange(crosses: seq<SagaCross>, user: User, l: PosChange): set<Cand> {
    if l.changeType.Mint? then CandsOnMint(crosses, user, l.time)
    else if !l.changeType.Burn? && l.pivotTime.Some? && l.pivotTime.value > 0 then {Cand(user, l.pivotTime.value)}
    else {}
  }

  // What a cross does to a subplot: its active liquidity moves to the pivot.
  function Crossed(p: Subplot, pivotTime: int): Subplot {
    p.(knockedOut := p.knockedOut[pivotTime := p.active], active := 0)
  }

  function CrossAll(users: map<User, Subplot>, cands: seq<Cand>, pivotTime: int): map<User, Subplot> {
    if cands == [] then users
    else
      var rest, user := CrossAll(users, cands[..|cands| - 1], pivotTime), cands[|cands| - 1].user;
      rest[user := Crossed(ForUser(rest, user), pivotTime)]
  }

  datatype Step =
    | FilePosition(user: User, change: PosChange, pivot: int)
    | EstimatePosition
    | FileCross(cross: SagaCross)
    | WorkOff(cands: seq<Cand>)
    | RefreshAlive(user: User, qty: int)
    | RefreshPost(post: Cand, qty: int)

  function Mints(users: map<User, Subplot>): map<User, seq<SagaTx>> {
    map u | u in users :: users[u].mints
  }

  // The ingestion thread ends one change before the next; the worker takes the oldest update; queries
  // answer for what was asked, with a quantity; a recovery names its pivot.
  ghost predicate Allowed(s: Saga, step: Step) {
    match step
    case FilePosition(_, l, _) => s.filing.None? && (l.changeType.Recover? ==> l.pivotTime.Some?)
    case EstimatePosition => s.filing.Some?
    case FileCross(_) => s.filing.None?
    case WorkOff(cands) => s.queue != [] && Candidates(s, s.queue[0], cands)
    case RefreshAlive(user, qty) => user in s.alive && qty >= 0
    case RefreshPost(cand, qty) => cand in s.posts && qty >= 0
  }

  // The candidates of a cross, each once, in whatever order they are found.
  ghost predicate Candidates(s: Saga, m: Update, cands: seq<Cand>) {
    match m
    case PosUpdate(_, _) => cands == []
    case CrossUpdate(c) => NoneTwice(cands) && SetOf(cands) == CandsOnCross(Mints(s.users), c)
  }

  // A cross is recorded at ingestion and again when its update is processed.
  ghost function After(s: Saga, step: Step): Saga
    requires Allowed(s, step)
  {
    match step
    case FilePosition(user, l, pivot) =>
      s.(users := s.users[user := Filed(ForUser(s.users, user), l, pivot)], queue := s.queue + [PosUpdate(user, l)],
         filing := Some(Filing(user, l)))
    case EstimatePosition =>
      var f := s.filing.value;
      s.(users := s.users[f.user := Estimated(ForUser(s.users, f.user), f.change)], filing := None)
    case FileCross(c) => s.(crosses := s.crosses + [c], queue := s.queue + [CrossUpdate(c)])
    case WorkOff(cands) => Processed(s, s.queue[0], cands).(queue := s.queue[1..])
    case RefreshAlive(user, qty) =>
      s.(users := s.users[user := ForUser(s.users, user).(active := qty)])
    case RefreshPost(cand, qty) =>
      var p := ForUser(s.users, cand.user);
      s.(users := s.users[cand.user := p.(knockedOut := p.knockedOut[cand.pivotTime := qty])])
  }

  ghost function Processed(s: Saga, m: Update, cands: seq<Cand>): Saga {
    match m
    case PosUpdate(user, l) =>
      s.(users := s.users[user := Timed(ForUser(s.users, user), l)],
         posts := s.posts + CandsOnChange(s.crosses, user, l),
         alive := if l.changeType.Mint? || l.changeType.Burn? then s.alive + {user} else s.alive)
    case CrossUpdate(c) =>
      s.(users := CrossAll(s.users, cands, c.pivotTime), crosses := s.crosses + [c], posts := s.posts + SetOf(cands))
  }

  // The worker is about to process a cross.
  ghost predicate Crossing(s: Saga, c: SagaCross, cands: seq<Cand>) {
    Allowed(s, WorkOff(cands)) && s.queue[0] == CrossUpdate(c)
  }

  // ---------------------------------------------------------------------------------------------
  // Crossing, user by user

  lemma {:induction false} CrossedUser(users: map<User, Subplot>, cands: seq<Cand>, pivotTime: int, user: User)
    requires NoneTwice(cands) && forall i :: 0 <= i < |cands| ==> cands[i].pivotTime == pivotTime
    ensures ForUser(CrossAll(users, cands, pivotTime), user) ==
      if Cand(user, pivotTime) in cands then Crossed(ForUser(users, user), pivotTime) else ForUser(users, user)
  {
    if cands != [] {
      var init, last := cands[..|cands| - 1], cands[|cands| - 1];
      CrossedUser(users, init, pivotTime, user);
      assert last == Cand(last.user, pivotTime);
    }
  }

  lemma CandsHavePivot(users: map<User, Subplot>, cands: seq<Cand>, c: SagaCross)
    requires SetOf(cands) == CandsOnCross(Mints(users), c)
    ensures forall i :: 0 <= i < |cands| ==> cands[i].pivotTime == c.pivotTime && cands[i].user in users
    ensures forall i :: 0 <= i < |cands| ==> users[cands[i].user].mints != []
  {
    forall i | 0 <= i < |cands|
      ensures cands[i].pivotTime == c.pivotTime && cands[i].user in users && users[cands[i].user].mints != []
    {
      assert cands[i] in SetOf(cands);
      assert AnyTaken(Mints(users)[cands[i].user], c);
    }
  }

  // A cross takes the active liquidity of every candidate to its pivot, and leaves all others be.
  lemma CrossMovesActive(s: Saga, c: SagaCross, cands: seq<Cand>, user: User)
    requires Crossing(s, c, cands)
    ensures var p, q := ForUser(s.users, user), ForUser(After(s, WorkOff(cands)).users, user);
      if user in s.users && AnyInReach(p.mints, c)
      then q.active == 0 && KnockedOutAt(q, c.pivotTime) == p.active
           && (forall t :: t != c.pivotTime ==> KnockedOutAt(q, t) == KnockedOutAt(p, t))
      else q == p
  {
    CandsHavePivot(s.users, cands, c);
    CrossedUser(s.users, cands, c.pivotTime, user);
    InSetOf(cands, Cand(user, c.pivotTime));
    if user in s.users {
      assert Mints(s.users)[user] == s.users[user].mints;
      TakenIsInReach(s.users[user].mints, c);
    }
  }

  // ---------------------------------------------------------------------------------------------
  // Conservation

  function KnockedOutOver(p: Subplot, pivots: seq<int>): int {
    if pivots == [] then 0
    else KnockedOutOver(p, pivots[..|pivots| - 1]) + KnockedOutAt(p, pivots[|pivots| - 1])
  }

  // The order liquidity of some users, over some pivots.
  function Total(users: map<User, Subplot>, us: seq<User>, pivots: seq<int>): int {
    if us == [] then 0
    else
      var p := ForUser(users, us[|us| - 1]);
      Total(users, us[..|us| - 1], pivots) + p.active + KnockedOutOver(p, pivots)
  }

  // What candidates had knocked out at a pivot before it is crossed again.
  function Overwritten(users: map<User, Subplot>, us: seq<User>, cands: seq<Cand>, pivotTime: int): int {
    if us == [] then 0
    else
      var u := us[|us| - 1];
      Overwritten(users, us[..|us| - 1], cands, pivotTime) +
        if Cand(u, pivotTime) in cands then KnockedOutAt(ForUser(users, u), pivotTime) else 0
  }

  lemma {:induction false} CrossedOver(p: Subplot, pivotTime: int, pivots: seq<int>)
    requires NoneTwice(pivots)
    ensures KnockedOutOver(Crossed(p, pivotTime), pivots) ==
      KnockedOutOver(p, pivots) + if pivotTime in pivots then p.active - KnockedOutAt(p, pivotTime) else 0
  {
    if pivots != [] { CrossedOver(p, pivotTime, pivots[..|pivots| - 1]); }
  }

  lemma {:induction false} CrossTotal(users: map<User, Subplot>, us: seq<User>, cands: seq<Cand>, pivotTime: int,
          pivots: seq<int>)
    requires NoneTwice(cands) && forall i :: 0 <= i < |cands| ==> cands[i].pivotTime == pivotTime
    requires NoneTwice(pivots) && pivotTime in pivots
    ensures Total(CrossAll(users, cands, pivotTime), us, pivots) ==
      Total(users, us, pivots) - Overwritten(users, us, cands, pivotTime)
  {
    if us != [] {
      CrossTotal(users, us[..|us| - 1], cands, pivotTime, pivots);
      CrossedUser(users, cands, pivotTime, us[|us| - 1]);
      CrossedOver(ForUser(users, us[|us| - 1]), pivotTime, pivots);
    }
  }

  ghost predicate NoneNegative(users: map<User, Subplot>) {
    forall u :: u in users ==> users[u].active >= 0 && forall t :: t in users[u].knockedOut ==> users[u].knockedOut[t] >= 0
  }

  lemma {:induction false} NothingOverwritten(users: map<User, Subplot>, us: seq<User>, cands: seq<Cand>, pivotTime: int)
    requires NoneNegative(users)
    ensures Overwritten(users, us, cands, pivotTime) >= 0
    ensures Overwritten(users, us, cands, pivotTime) == 0 <==>
      forall i :: 0 <= i < |us| && Cand(us[i], pivotTime) in cands ==> KnockedOutAt(ForUser(users, us[i]), pivotTime) == 0
  {
    if us != [] {
      var init := us[..|us| - 1];
      NothingOverwritten(users, init, cands, pivotTime);
      var last := ForUser(users, us[|us| - 1]);
      assert KnockedOutAt(last, pivotTime) >= 0;
      forall i | 0 <= i < |init| ensures init[i] == us[i] {}
    }
  }

  // A cross neither makes nor loses order liquidity if and only if none of its candidates had
  // anything knocked out at that pivot already, as is so when the pivot is fresh. (Over any users
  // and any pivots, the crossed one among them.)
  lemma {:induction false} CrossConservesExactly(s: Saga, c: SagaCross, cands: seq<Cand>, us: seq<User>, pivots: seq<int>)
    requires Crossing(s, c, cands) && NoneNegative(s.users)
    requires NoneTwice(pivots) && c.pivotTime in pivots
    ensures Total(After(s, WorkOff(cands)).users, us, pivots) == Total(s.users, us, pivots) <==>
      forall i :: 0 <= i < |us| && Cand(us[i], c.pivotTime) in cands ==> KnockedOutAt(ForUser(s.users, us[i]), c.pivotTime) == 0
  {
    CandsHavePivot(s.users, cands, c);
    CrossTotal(s.users, us, cands, c.pivotTime, pivots);
    NothingOverwritten(s.users, us, cands, c.pivotTime);
  }

  // ---------------------------------------------------------------------------------------------
  // Listing a user's orders

  // The time of the first recorded cross of a pivot.
  function GetCrossForPivotTime(crosses: seq<SagaCross>, pivotTime: int): Option<int> {
    if crosses == [] then None
    else
      var first := GetCrossForPivotTime(crosses[..|crosses| - 1], pivotTime);
      if first.Some? then first
      else if crosses[|crosses| - 1].pivotTime == pivotTime then Some(crosses[|crosses| - 1].crossTime)
      else None
  }

  ghost predicate HasCross(crosses: seq<SagaCross>, pivotTime: int) {
    exists i :: 0 <= i < |crosses| && crosses[i].pivotTime == pivotTime
  }

  lemma {:induction false} FoundIfCrossed(crosses: seq<SagaCross>, pivotTime: int)
    ensures GetCrossForPivotTime(crosses, pivotTime).Some? <==> HasCross(crosses, pivotTime)
  {
    if crosses != [] {
      var init := crosses[..|crosses| - 1];
      FoundIfCrossed(init, pivotTime);
      if HasCross(init, pivotTime) {
        var i :| 0 <= i < |init| && init[i].pivotTime == pivotTime;
        assert crosses[i].pivotTime == pivotTime;
      }
      if HasCross(crosses, pivotTime) {
        var i :| 0 <= i < |crosses| && crosses[i].pivotTime == pivotTime;
        if i < |init| { assert init[i].pivotTime == pivotTime; }
      }
    }
  }

  // Listing ends the process when an order rests that no mint is known for, or when a claim has
  // no cross.
  ghost predicate Listable(p: Subplot, crosses: seq<SagaCross>) {
    && (p.active != 0 ==> p.mints != [])
    && forall t :: t in p.knockedOut && p.knockedOut[t] != 0 ==> HasCross(crosses, t)
  }

  datatype LimitOrder =
    | Active(pivotTime: int, liq: int)
    | Claimable(pivotTime: int, crossTime: int, liq: int)

  // What rests, under the pivot of the latest mint.
  function Resting(p: Subplot): seq<LimitOrder> {
    if p.active == 0 || p.mints == [] then [] else [Active(p.mints[|p.mints| - 1].pivotTime, p.active)]
  }

  function ClaimsOver(p: Subplot, crosses: seq<SagaCross>, pivots: seq<int>): seq<LimitOrder> {
    if pivots == [] then []
    else
      var rest, t := ClaimsOver(p, crosses, pivots[..|pivots| - 1]), pivots[|pivots| - 1];
      if KnockedOutAt(p, t) == 0 then rest
      else
        match GetCrossForPivotTime(crosses, t)
        case None => rest
        case Some(time) => rest + [Claimable(t, time, KnockedOutAt(p, t))]
  }

  // The first cross of its pivot on record.
  ghost predicate FirstCross(crosses: seq<SagaCross>, c: SagaCross) {
    exists i :: 0 <= i < |crosses| && crosses[i] == c && forall j :: 0 <= j < i ==> crosses[j].pivotTime != c.pivotTime
  }

  lemma {:induction false} FoundIsFirst(crosses: seq<SagaCross>, c: SagaCross)
    ensures GetCrossForPivotTime(crosses, c.pivotTime) == Some(c.crossTime) <==> FirstCross(crosses, c)
  {
    if crosses != [] {
      var init, last := crosses[..|crosses| - 1], crosses[|crosses| - 1];
      FoundIsFirst(init, c);
      FoundIfCrossed(init, c.pivotTime);
      assert forall i :: 0 <= i < |init| ==> init[i] == crosses[i];
      if FirstCross(init, c) {
        var i :| 0 <= i < |init| && init[i] == c && forall j :: 0 <= j < i ==> init[j].pivotTime != c.pivotTime;
        assert crosses[i] == c;
      }
      if FirstCross(crosses, c) {
        var i :| 0 <= i < |crosses| && crosses[i] == c && forall j :: 0 <= j < i ==> crosses[j].pivotTime != c.pivotTime;
        if i < |init| { assert init[i] == c; }
      }
    }
  }

  method GetCross(crosses: seq<SagaCross>, pivotTime: int) returns (crossTime: int, ok: bool)
    ensures ok <==> GetCrossForPivotTime(crosses, pivotTime).Some?
    ensures ok ==> Some(crossTime) == GetCrossForPivotTime(crosses, pivotTime)
    ensures ok <==> HasCross(crosses, pivotTime)
    ensures ok ==> FirstCross(crosses, SagaCross(crossTime, pivotTime))
  {
    FoundIfCrossed(crosses, pivotTime);
    for i := 0 to |crosses|
      invariant GetCrossForPivotTime(crosses[..i], pivotTime).None?
    {
      assert crosses[..i + 1][..i] == crosses[..i];
      if crosses[i].pivotTime == pivotTime {
        FirstCrossStays(crosses, i + 1, pivotTime);
        FoundIsFirst(crosses, SagaCross(crosses[i].crossTime, pivotTime));
        return crosses[i].crossTime, true;
      }
    }
    assert crosses[..|crosses|] == crosses;
    return -1, false;
  }

  lemma {:induction false} FirstCrossStays(crosses: seq<SagaCross>, n: nat, pivotTime: int)
    requires n <= |crosses| && GetCrossForPivotTime(crosses[..n], pivotTime).Some?
    ensures GetCrossForPivotTime(crosses, pivotTime) == GetCrossForPivotTime(crosses[..n], pivotTime)
  {
    if n < |crosses| {
      assert crosses[..|crosses| - 1][..n] == crosses[..n];
      FirstCrossStays(crosses[..|crosses| - 1], n, pivotTime);
    } else {
      assert crosses[..n] == crosses;
    }
  }

  // What rests, under the pivot of the latest mint; and what is knocked out at a pivot, with the time
  // of the first cross of it.
  ghost predicate Listed(p: Subplot, crosses: seq<SagaCross>, o: LimitOrder) {
    match o
    case Active(pivotTime, liq) => p.mints != [] && pivotTime == p.mints[|p.mints| - 1].pivotTime && liq == p.active != 0
    case Claimable(pivotTime, crossTime, liq) =>
      pivotTime in p.knockedOut && liq == p.knockedOut[pivotTime] != 0 && FirstCross(crosses, SagaCross(crossTime, pivotTime))
  }

  lemma {:induction false} ClaimsAre(p: Subplot, crosses: seq<SagaCross>, pivots: seq<int>, o: LimitOrder)
    ensures o in ClaimsOver(p, crosses, pivots) <==> o.Claimable? && o.pivotTime in pivots && Listed(p, crosses, o)
  {
    hide FirstCross;
    if pivots != [] {
      var t := pivots[|pivots| - 1];
      ClaimsAre(p, crosses, pivots[..|pivots| - 1], o);
      assert pivots == pivots[..|pivots| - 1] + [t];
      if o.Claimable? { FoundIsFirst(crosses, SagaCross(o.crossTime, o.pivotTime)); }
    }
  }

  lemma {:induction false} ListsExactly(p: Subplot, crosses: seq<SagaCross>, pivots: seq<int>)
    requires forall t :: t in pivots <==> t in p.knockedOut
    ensures forall o :: o in Resting(p) + ClaimsOver(p, crosses, pivots) <==> Listed(p, crosses, o)
  {
    hide FirstCross, ClaimsOver;
    forall o ensures o in Resting(p) + ClaimsOver(p, crosses, pivots) <==> Listed(p, crosses, o) {
      ClaimsAre(p, crosses, pivots, o);
    }
  }

  lemma NoClaims(p: Subplot, crosses: seq<SagaCross>)
    ensures ClaimsOver(p, crosses, []) == []
  {
  }

  lemma {:induction false} NextClaim(p: Subplot, crosses: seq<SagaCross>, pivots: seq<int>, i: nat)
    requires i < |pivots|
    ensures var t := pivots[i];
      var found := GetCrossForPivotTime(crosses, t);
      ClaimsOver(p, crosses, pivots[..i + 1]) ==
        ClaimsOver(p, crosses, pivots[..i])
          + if KnockedOutAt(p, t) == 0 || found.None? then [] else [Claimable(t, found.value, KnockedOutAt(p, t))]
  {
    assert pivots[..i + 1][..i] == pivots[..i];
  }

  // The orders of a user: the resting one under the pivot of its latest mint, then what can be
  // claimed, pivot by pivot in whatever order the map is visited. None when the process ends.
  method UnrollSubplot(p: Subplot, crosses: seq<SagaCross>, pivots: seq<int>) returns (orders: Option<seq<LimitOrder>>)
    requires NoneTwice(pivots) && forall t :: t in pivots <==> t in p.knockedOut
    ensures orders.Some? <==> Listable(p, crosses)
    ensures orders.Some? ==>
      orders.value == Resting(p) + ClaimsOver(p, crosses, pivots)
    ensures orders.Some? ==> forall o :: o in orders.value <==> Listed(p, crosses, o)
  {
    hide HasCross, Listed, ClaimsOver, GetCrossForPivotTime, FirstCross;
    NoClaims(p, crosses);
    if Listable(p, crosses) { ListsExactly(p, crosses, pivots); }
    var unrolled := [];
    if p.active != 0 {
      if |p.mints| == 0 {
        return None;
      }
      unrolled := [Active(p.mints[|p.mints| - 1].pivotTime, p.active)];
    }
    ghost var resting := unrolled;
    for i := 0 to |pivots|
      invariant unrolled == resting + ClaimsOver(p, crosses, pivots[..i])
      invariant forall j :: 0 <= j < i && KnockedOutAt(p, pivots[j]) != 0 ==> HasCross(crosses, pivots[j])
    {
      var pivotTime := pivots[i];
      assert pivotTime in pivots;
      NextClaim(p, crosses, pivots, i);
      FoundIfCrossed(crosses, pivotTime);
      if p.knockedOut[pivotTime] != 0 {
        var crossTime, ok := GetCross(crosses, pivotTime);
        if !ok {
          return None;
        }
        unrolled := unrolled + [Claimable(pivotTime, crossTime, p.knockedOut[pivotTime])];
      }
    }
    assert pivots[..|pivots|] == pivots;
    return Some(unrolled);
  }

  // ---------------------------------------------------------------------------------------------
  // What every run keeps

  // Mints come first, and a claimed pivot was crossed before.
  ghost predicate WellFormed(s: Saga, step: Step) {
    step.FilePosition? ==>
      && (!step.change.changeType.Mint? ==> ForUser(s.users, step.user).mints != [])
      && ClaimIsCrossed(s.crosses, step.change)
  }

  ghost predicate ClaimIsCrossed(crosses: seq<SagaCross>, l: PosChange) {
    ClaimsPivot(l) ==> HasCross(crosses, l.pivotTime.value)
  }

  predicate ClaimsPivot(l: PosChange) {
    !l.changeType.Mint? && !l.changeType.Burn? && l.pivotTime.Some? && l.pivotTime.value > 0
  }

  ghost predicate AllListable(s: Saga) {
    forall u :: u in s.users ==> Listable(s.users[u], s.crosses)
  }

  ghost predicate AskedFor(s: Saga) {
    && (forall u :: u in s.alive ==> ForUser(s.users, u).mints != [])
    && (forall cand :: cand in s.posts ==> HasCross(s.crosses, cand.pivotTime) && ForUser(s.users, cand.user).mints != [])
  }

  // What is queued is about users with mints and crosses on record.
  ghost predicate QueueFiled(s: Saga) {
    && (forall m :: m in s.queue ==> UpdateFiled(s, m))
    && (s.filing.Some? ==> ForUser(s.users, s.filing.value.user).mints != [])
  }

  ghost predicate UpdateFiled(s: Saga, m: Update) {
    match m
    case PosUpdate(user, l) => ForUser(s.users, user).mints != [] && ClaimIsCrossed(s.crosses, l)
    case CrossUpdate(c) => HasCross(s.crosses, c.pivotTime)
  }

  ghost predicate Inv(s: Saga) {
    NoneNegative(s.users) && AllListable(s) && AskedFor(s) && QueueFiled(s)
  }

  lemma MoreCrosses(p: Subplot, crosses: seq<SagaCross>, more: seq<SagaCross>)
    ensures Listable(p, crosses) ==> Listable(p, crosses + more)
    ensures forall t :: HasCross(crosses, t) ==> HasCross(crosses + more, t)
  {
    forall t | HasCross(crosses, t) ensures HasCross(crosses + more, t) {
      var i :| 0 <= i < |crosses| && crosses[i].pivotTime == t;
      assert (crosses + more)[i].pivotTime == t;
    }
  }

  lemma MintCandsCrossed(crosses: seq<SagaCross>, user: User, time: int)
    ensures forall cand :: cand in CandsOnMint(crosses, user, time) ==> HasCross(crosses, cand.pivotTime) && cand.user == user
  {
  }

  // Filing, estimating and answering leave the crosses alone, and nobody loses a mint.
  ghost predicate MintsStay(s: Saga, t: Saga) {
    && (forall u :: ForUser(s.users, u).mints != [] ==> ForUser(t.users, u).mints != [])
    && (forall p :: HasCross(s.crosses, p) ==> HasCross(t.crosses, p))
  }

  lemma StillFiled(s: Saga, t: Saga)
    requires MintsStay(s, t) && QueueFiled(s) && AskedFor(s)
    ensures forall m :: m in s.queue ==> UpdateFiled(t, m)
    ensures s.filing.Some? ==> ForUser(t.users, s.filing.value.user).mints != []
    ensures forall u :: u in s.alive ==> ForUser(t.users, u).mints != []
    ensures forall cand :: cand in s.posts ==> HasCross(t.crosses, cand.pivotTime) && ForUser(t.users, cand.user).mints != []
  {
    hide HasCross;
    forall m | m in s.queue ensures UpdateFiled(t, m) {
      assert UpdateFiled(s, m);
    }
  }

  lemma FilingKeepsInv(s: Saga, user: User, l: PosChange, pivot: int)
    requires Inv(s) && Allowed(s, FilePosition(user, l, pivot)) && WellFormed(s, FilePosition(user, l, pivot))
    ensures Inv(After(s, FilePosition(user, l, pivot)))
  {
    hide HasCross;
    var t := After(s, FilePosition(user, l, pivot));
    StillFiled(s, t);
    assert Listable(ForUser(s.users, user), s.crosses);
  }

  lemma EstimateKeepsInv(s: Saga)
    requires Inv(s) && Allowed(s, EstimatePosition)
    ensures Inv(After(s, EstimatePosition))
  {
    hide HasCross;
    var t, f := After(s, EstimatePosition), s.filing.value;
    StillFiled(s, t);
    assert Listable(ForUser(s.users, f.user), s.crosses);
  }

  lemma LastCross(crosses: seq<SagaCross>, c: SagaCross)
    ensures HasCross(crosses + [c], c.pivotTime)
  {
    assert (crosses + [c])[|crosses|] == c;
  }

  lemma RecordKeepsInv(s: Saga, c: SagaCross)
    requires Inv(s) && Allowed(s, FileCross(c))
    ensures Inv(After(s, FileCross(c)))
  {
    hide HasCross;
    var t := After(s, FileCross(c));
    MoreCrosses(NEW_SUBPLOT, s.crosses, [c]);
    LastCross(s.crosses, c);
    StillFiled(s, t);
  }

  lemma TimingKeepsInv(s: Saga, user: User, l: PosChange)
    requires Inv(s) && Allowed(s, WorkOff([])) && s.queue[0] == PosUpdate(user, l)
    ensures Inv(After(s, WorkOff([])))
  {
    hide CandsOnMint, HasCross;
    var t := After(s, WorkOff([]));
    MintCandsCrossed(s.crosses, user, l.time);
    StillFiled(s, t);
    assert s.queue[0] in s.queue && UpdateFiled(s, s.queue[0]);
    assert Listable(ForUser(s.users, user), s.crosses);
  }

  // A cross leaves every user listable who was.
  lemma CrossedListable(s: Saga, c: SagaCross, cands: seq<Cand>)
    requires AllListable(s) && Crossing(s, c, cands)
    ensures AllListable(After(s, WorkOff(cands)))
    ensures forall u :: ForUser(After(s, WorkOff(cands)).users, u).mints == ForUser(s.users, u).mints
  {
    hide HasCross, CandsOnCross, Mints, CrossAll;
    var t := After(s, WorkOff(cands));
    CandsHavePivot(s.users, cands, c);
    LastCross(s.crosses, c);
    CrossedKeys(s.users, cands, c.pivotTime);
    MoreCrosses(NEW_SUBPLOT, s.crosses, [c]);
    forall u ensures ForUser(t.users, u).mints == ForUser(s.users, u).mints {
      CrossedUser(s.users, cands, c.pivotTime, u);
    }
    forall u | u in t.users ensures Listable(t.users[u], t.crosses) {
      CrossedUser(s.users, cands, c.pivotTime, u);
      assert u in s.users && Listable(s.users[u], s.crosses);
    }
  }

  lemma CrossKeepsInv(s: Saga, c: SagaCross, cands: seq<Cand>)
    requires Inv(s) && Crossing(s, c, cands)
    ensures Inv(After(s, WorkOff(cands)))
  {
    hide HasCross, CandsOnCross, Mints, CrossAll, Listable;
    var t := After(s, WorkOff(cands));
    CandsHavePivot(s.users, cands, c);
    LastCross(s.crosses, c);
    CrossedKeys(s.users, cands, c.pivotTime);
    MoreCrosses(NEW_SUBPLOT, s.crosses, [c]);
    CrossedListable(s, c, cands);
    forall u | u in t.users
      ensures t.users[u].active >= 0
      ensures forall x :: x in t.users[u].knockedOut ==> t.users[u].knockedOut[x] >= 0
    {
      CrossedUser(s.users, cands, c.pivotTime, u);
      assert u in s.users;
    }
    StillFiled(s, t);
    forall cand | cand in t.posts ensures HasCross(t.crosses, cand.pivotTime) && ForUser(t.users, cand.user).mints != [] {
      InSetOf(cands, cand);
    }
  }

  lemma {:induction false} CrossedKeys(users: map<User, Subplot>, cands: seq<Cand>, pivotTime: int)
    requires forall i :: 0 <= i < |cands| ==> cands[i].user in users
    ensures CrossAll(users, cands, pivotTime).Keys == users.Keys
  {
    if cands != [] {
      CrossedKeys(users, cands[..|cands| - 1], pivotTime);
      assert cands[|cands| - 1].user in users;
    }
  }

  lemma StepKeepsInv(s: Saga, step: Step)
    requires Inv(s) && Allowed(s, step) && WellFormed(s, step)
    ensures Inv(After(s, step))
  {
    hide Inv, WellFormed;
    match step
    case FilePosition(user, l, pivot) => FilingKeepsInv(s, user, l, pivot);
    case EstimatePosition => EstimateKeepsInv(s);
    case FileCross(c) => RecordKeepsInv(s, c);
    case WorkOff(cands) =>
      match s.queue[0] {
        case PosUpdate(user, l) => TimingKeepsInv(s, user, l);
        case CrossUpdate(c) => CrossKeepsInv(s, c, cands);
      }
    case RefreshAlive(_, _) => RefreshKeepsInv(s, step);
    case RefreshPost(_, _) => RefreshKeepsInv(s, step);
  }

  lemma RefreshKeepsInv(s: Saga, step: Step)
    requires Inv(s) && Allowed(s, step) && (step.RefreshAlive? || step.RefreshPost?)
    ensures Inv(After(s, step))
  {
    hide HasCross;
    var t := After(s, step);
    StillFiled(s, t);
    assert Listable(ForUser(s.users, if step.RefreshAlive? then step.user else step.post.user), s.crosses);
  }

  ghost predicate ValidRun(run: seq<Step>)
    decreases |run|, 0
  {
    run == [] || (ValidRun(run[..|run| - 1]) && Allowed(Exec(run[..|run| - 1]), run[|run| - 1]))
  }

  ghost function Exec(run: seq<Step>): Saga
    requires ValidRun(run)
    decreases |run|, 1
  {
    if run == [] then NEW_SAGA else After(Exec(run[..|run| - 1]), run[|run| - 1])
  }

  ghost predicate AllWellFormed(run: seq<Step>)
    requires ValidRun(run)
  {
    run == [] || (AllWellFormed(run[..|run| - 1]) && WellFormed(Exec(run[..|run| - 1]), run[|run| - 1]))
  }

  // Over any run in which mints come first and claims name crossed pivots, no liquidity is ever
  // negative, and every user's orders can be listed at any time: the process does not end there.
  lemma {:induction false} AlwaysListable(run: seq<Step>)
    requires ValidRun(run) && AllWellFormed(run)
    ensures Inv(Exec(run))
    ensures forall u :: u in Exec(run).users ==> Listable(Exec(run).users[u], Exec(run).crosses)
  {
    if run != [] {
      AlwaysListable(run[..|run| - 1]);
      StepKeepsInv(Exec(run[..|run| - 1]), run[|run| - 1]);
    }
  }

  // ---------------------------------------------------------------------------------------------
  // Which runs stay listable, whatever comes first in them

  // What has been filed so far.
  predicate MintFiled(run: seq<Step>, user: User) {
    run != [] &&
    (MintFiled(run[..|run| - 1], user) ||
     (run[|run| - 1].FilePosition? && run[|run| - 1].user == user && run[|run| - 1].change.changeType.Mint?))
  }

  predicate CrossFiled(run: seq<Step>, pivotTime: int) {
    run != [] &&
    (CrossFiled(run[..|run| - 1], pivotTime) || (run[|run| - 1].FileCross? && run[|run| - 1].cross.pivotTime == pivotTime))
  }

  function LastFiled(run: seq<Step>): Option<Filing> {
    if run == [] then None
    else
      match run[|run| - 1]
      case FilePosition(user, l, _) => Some(Filing(user, l))
      case EstimatePosition => None
      case _ => LastFiled(run[..|run| - 1])
  }

  // A burn whose flows amount to incoming liquidity.
  predicate BurnsInto(l: PosChange) {
    l.changeType.Burn? && l.liq.Some? && Truncate(l.liq.value) > 0
  }

  // After what was filed before it, a step leaves nobody with an order that cannot be listed: an
  // answer is nothing, or about a user with a mint, or about a pivot with a cross; and what is
  // burned into has a mint.
  predicate StepFits(before: seq<Step>, step: Step) {
    match step
    case EstimatePosition =>
      LastFiled(before).Some? && BurnsInto(LastFiled(before).value.change) ==> MintFiled(before, LastFiled(before).value.user)
    case RefreshAlive(user, qty) => qty == 0 || MintFiled(before, user)
    case RefreshPost(post, qty) => qty == 0 || CrossFiled(before, post.pivotTime)
    case _ => true
  }

  predicate RunFits(run: seq<Step>) {
    run == [] || (RunFits(run[..|run| - 1]) && StepFits(run[..|run| - 1], run[|run| - 1]))
  }

  ghost predicate ListableThroughout(run: seq<Step>)
    requires ValidRun(run)
  {
    AllListable(Exec(run)) && (run != [] ==> ListableThroughout(run[..|run| - 1]))
  }

  // The state knows what was filed: mints, crosses (recorded or queued) and the change in hand.
  ghost predicate Knows(s: Saga, run: seq<Step>) {
    && (forall u :: ForUser(s.users, u).mints != [] <==> MintFiled(run, u))
    && (forall t :: HasCross(s.crosses, t) <==> CrossFiled(run, t))
    && (forall c :: CrossUpdate(c) in s.queue ==> CrossFiled(run, c.pivotTime))
    && s.filing == LastFiled(run)
    && (s.filing.Some? && s.filing.value.change.changeType.Mint? ==> MintFiled(run, s.filing.value.user))
  }

  lemma HasCrossAppend(crosses: seq<SagaCross>, c: SagaCross)
    ensures forall t :: HasCross(crosses + [c], t) <==> HasCross(crosses, t) || c.pivotTime == t
  {
    MoreCrosses(NEW_SUBPLOT, crosses, [c]);
    LastCross(crosses, c);
    forall t | HasCross(crosses + [c], t) ensures HasCross(crosses, t) || c.pivotTime == t {
      var i :| 0 <= i < |crosses + [c]| && (crosses + [c])[i].pivotTime == t;
      if i < |crosses| { assert crosses[i].pivotTime == t; }
    }
  }

  lemma StepKnows(s: Saga, before: seq<Step>, step: Step)
    requires Knows(s, before) && Allowed(s, step)
    ensures Knows(After(s, step), before + [step])
  {
    hide HasCross, MintFiled, CrossFiled, LastFiled;
    var run, t := before + [step], After(s, step);
    FiledBy(before, step);
    if step.FileCross? { HasCrossAppend(s.crosses, step.cross); }
    if step.WorkOff? {
      assert s.queue[0] in s.queue;
      if s.queue[0].CrossUpdate? {
        HasCrossAppend(s.crosses, s.queue[0].cross);
        WorkedOffMints(s, step.cands);
      }
    }
    forall u ensures ForUser(t.users, u).mints != [] <==> MintFiled(run, u) {
      assert ForUser(s.users, u).mints != [] <==> MintFiled(before, u);
    }
    forall c | CrossUpdate(c) in t.queue ensures CrossFiled(run, c.pivotTime) {
      assert CrossUpdate(c) in s.queue || step == FileCross(c);
    }
  }

  lemma FiledBy(before: seq<Step>, step: Step)
    ensures forall u :: MintFiled(before + [step], u) <==>
      MintFiled(before, u) || (step.FilePosition? && step.user == u && step.change.changeType.Mint?)
    ensures forall t :: CrossFiled(before + [step], t) <==> CrossFiled(before, t) || (step.FileCross? && step.cross.pivotTime == t)
    ensures LastFiled(before + [step]) ==
      if step.FilePosition? then Some(Filing(step.user, step.change)) else if step.EstimatePosition? then None else LastFiled(before)
  {
    assert (before + [step])[..|before|] == before;
  }

  lemma WorkedOffMints(s: Saga, cands: seq<Cand>)
    requires Allowed(s, WorkOff(cands)) && s.queue[0].CrossUpdate?
    ensures forall u :: ForUser(After(s, WorkOff(cands)).users, u).mints == ForUser(s.users, u).mints
  {
    var c := s.queue[0].cross;
    CandsHavePivot(s.users, cands, c);
    forall u ensures ForUser(After(s, WorkOff(cands)).users, u).mints == ForUser(s.users, u).mints {
      CrossedUser(s.users, cands, c.pivotTime, u);
    }
  }

  lemma {:induction false} RunKnows(run: seq<Step>)
    requires ValidRun(run)
    ensures Knows(Exec(run), run)
  {
    if run != [] {
      RunKnows(run[..|run| - 1]);
      StepKnows(Exec(run[..|run| - 1]), run[..|run| - 1], run[|run| - 1]);
      assert run[..|run| - 1] + [run[|run| - 1]] == run;
    }
  }

  lemma StepListableExactly(s: Saga, before: seq<Step>, step: Step)
    requires AllListable(s) && Knows(s, before) && Allowed(s, step)
    ensures AllListable(After(s, step)) <==> StepFits(before, step)
  {
    hide HasCross, MintFiled, CrossFiled, LastFiled;
    match step
    case WorkOff(cands) =>
      if s.queue[0].CrossUpdate? {
        CrossedListable(s, s.queue[0].cross, cands);
      } else {
        assert Listable(ForUser(s.users, s.queue[0].user), s.crosses);
      }
    case FileCross(c) =>
      MoreCrosses(NEW_SUBPLOT, s.crosses, [c]);
    case FilePosition(user, l, pivot) =>
      assert Listable(ForUser(s.users, user), s.crosses);
    case EstimatePosition =>
      EstimateListable(s, before);
    case RefreshAlive(user, qty) =>
      assert Listable(ForUser(s.users, user), s.crosses);
      assert After(s, step).users[user].active == qty;
    case RefreshPost(post, qty) =>
      assert Listable(ForUser(s.users, post.user), s.crosses);
      assert After(s, step).users[post.user].knockedOut[post.pivotTime] == qty;
  }

  lemma EstimateListable(s: Saga, before: seq<Step>)
    requires AllListable(s) && Knows(s, before) && s.filing.Some?
    ensures AllListable(After(s, EstimatePosition)) <==> StepFits(before, EstimatePosition)
  {
    hide HasCross, MintFiled, CrossFiled, LastFiled;
    var f, t := s.filing.value, After(s, EstimatePosition);
    var p := ForUser(s.users, f.user);
    assert Listable(p, s.crosses);
    assert Estimated(p, f.change) == t.users[f.user];
    assert AllListable(t) <==> Listable(t.users[f.user], s.crosses);
    if p.mints == [] { EstimateOfNothing(f.change); }
  }

  // With nothing resting a change leaves something to rest only if it comes with liquidity.
  lemma EstimateOfNothing(l: PosChange)
    requires !l.changeType.Mint?
    ensures Estimate(0, l) == 0 <==> !BurnsInto(l)
  {
  }

  // A run leaves every user's orders listable at every point, exactly: whatever comes first in it,
  // an answer must be nothing, or come after a mint of its user, or after a cross of its pivot;
  // and what is burned into must have been minted.
  lemma {:induction false} ListableThroughoutExactly(run: seq<Step>)
    requires ValidRun(run)
    ensures ListableThroughout(run) <==> RunFits(run)
  {
    hide AllListable, After, StepFits;
    if run == [] {
      NobodyListed();
    } else {
      var before, step := run[..|run| - 1], run[|run| - 1];
      ListableThroughoutExactly(before);
      RunKnows(before);
      if ListableThroughout(before) {
        StepListableExactly(Exec(before), before, step);
      }
    }
  }

  lemma NobodyListed()
    ensures AllListable(NEW_SAGA)
  {
  }

  // A claim makes the refresher ask for its pivot, and the answer can be listed exactly when it
  // is nothing or the pivot was crossed.
  lemma ClaimListableExactly(s: Saga, user: User, l: PosChange, qty: int)
    requires Listable(ForUser(s.users, user), s.crosses)
    requires Allowed(s, WorkOff([])) && s.queue[0] == PosUpdate(user, l) && ClaimsPivot(l) && qty >= 0
    ensures var t := After(s, WorkOff([])); var post := Cand(user, l.pivotTime.value);
      && Allowed(t, RefreshPost(post, qty))
      && (Listable(After(t, RefreshPost(post, qty)).users[user], t.crosses) <==>
          qty == 0 || HasCross(s.crosses, l.pivotTime.value))
  {
    hide HasCross;
    var t := After(s, WorkOff([]));
    var post := Cand(user, l.pivotTime.value);
    var q := After(t, RefreshPost(post, qty)).users[user];
    assert q.knockedOut[l.pivotTime.value] == qty;
  }

  lemma {:induction false} OneMore(run: seq<Step>, step: Step)
    requires ValidRun(run) && Allowed(Exec(run), step)
    ensures ValidRun(run + [step]) && Exec(run + [step]) == After(Exec(run), step)
  {
    assert (run + [step])[..|run|] == run;
  }

  // The worker takes off the one update there is, of a position.
  lemma {:induction false} ApplyAndWorkOff(run: seq<Step>, user: User, l: PosChange, pivot: int)
    requires ValidRun(run) && Exec(run).queue == [] && Exec(run).filing.None? && (l.changeType.Recover? ==> l.pivotTime.Some?)
    ensures var longer := run + [FilePosition(user, l, pivot)] + [EstimatePosition] + [WorkOff([])];
      && ValidRun(longer)
      && Exec(longer).queue == [] && Exec(longer).filing.None? && Exec(longer).crosses == Exec(run).crosses
      && (ClaimsPivot(l) ==> Cand(user, l.pivotTime.value) in Exec(longer).posts)
  {
    hide Estimated, Filed, Timed, CandsOnMint;
    OneMore(run, FilePosition(user, l, pivot));
    OneMore(run + [FilePosition(user, l, pivot)], EstimatePosition);
    OneMore(run + [FilePosition(user, l, pivot)] + [EstimatePosition], WorkOff([]));
  }

  // The input: a mint, and a claim of a pivot nothing has crossed. Once the query the claim leads
  // to is answered with anything, the user's listing ends the process.
  lemma UncrossedClaimEndsListing(user: User, mint: PosChange, pivot: int, claim: PosChange, qty: int)
    requires mint.changeType.Mint? && claim.changeType.Claim? && ClaimsPivot(claim) && qty > 0
    ensures var run := [FilePosition(user, mint, pivot), EstimatePosition, WorkOff([]),
                        FilePosition(user, claim, pivot), EstimatePosition, WorkOff([]),
                        RefreshPost(Cand(user, claim.pivotTime.value), qty)];
      ValidRun(run) && user in Exec(run).users && !Listable(Exec(run).users[user], Exec(run).crosses)
  {
    hide AllListable, Estimated, Filed, Timed, CandsOnMint;
    var minted: seq<Step> := [] + [FilePosition(user, mint, pivot)] + [EstimatePosition] + [WorkOff([])];
    var claimed := minted + [FilePosition(user, claim, pivot)] + [EstimatePosition] + [WorkOff([])];
    var answer := RefreshPost(Cand(user, claim.pivotTime.value), qty);
    assert ValidRun([]) && Exec([]) == NEW_SAGA;
    ApplyAndWorkOff([], user, mint, pivot);
    ApplyAndWorkOff(minted, user, claim, pivot);
    OneMore(claimed, answer);
    assert Exec(claimed + [answer]).users[user].knockedOut[claim.pivotTime.value] == qty;
    assert claimed + [answer] == [FilePosition(user, mint, pivot), EstimatePosition, WorkOff([]),
      FilePosition(user, claim, pivot), EstimatePosition, WorkOff([]), answer];
  }

  lemma CrossedUsersAre(users: map<User, Subplot>, c: SagaCross)
    ensures forall x :: x in CandsOnCross(Mints(users), c) <==>
      x.pivotTime == c.pivotTime && x.user in users && AnyInReach(users[x.user].mints, c)
  {
    hide CandsOnCross, AnyInReach;
    CrossCandsAre(Mints(users), c);
    assert forall u :: u in users ==> u in Mints(users) && Mints(users)[u] == users[u].mints;
  }

  lemma {:induction false} CrossNext(before: map<User, Subplot>, cands: seq<Cand>, cand: Cand, pivotTime: int)
    ensures var rest := CrossAll(before, cands, pivotTime);
      CrossAll(before, cands + [cand], pivotTime) == rest[cand.user := Crossed(ForUser(rest, cand.user), pivotTime)]
  {
    assert (cands + [cand])[..|cands|] == cands;
  }

  lemma {:induction false} NoneCrossed(users: map<User, Subplot>, pivotTime: int)
    ensures CrossAll(users, [], pivotTime) == users
  {
  }

  // ---------------------------------------------------------------------------------------------
  // The object

  class KnockoutSaga {
    var users: map<User, Subplot>
    var crosses: seq<SagaCross>
    var queue: seq<Update>             // the worker's queue, as far as it is about this saga
    ghost var filing: Option<Filing>
    ghost var posts: set<Cand>     // the queries pushed to the refresher
    ghost var alive: set<User>

    ghost function View(): Saga
      reads this
    {
      Saga(users, crosses, queue, filing, posts, alive)
    }

    constructor ()
      ensures View() == NEW_SAGA
    {
      users, crosses, queue, filing, posts, alive := map[], [], [], None, {}, {};
    }

    // From here on the user has a subplot.
    method MaterializeUser(user: User)
      modifies this`users
      ensures users == old(users)[user := ForUser(old(users), user)]
    {
      if user !in users {
        users := users[user := NEW_SUBPLOT];
      }
      assert users == old(users)[user := ForUser(old(users), user)];
    }

    method UpdateActiveLiq(user: User, liqQty: int)
      requires user in users
      modifies this`users
      ensures users == old(users)[user := old(users)[user].(active := liqQty)]
    {
      users := users[user := users[user].(active := liqQty)];
    }

    method UpdatePostKOLiq(user: User, pivotTime: int, liqQty: int)
      requires user in users
      modifies this`users
      ensures var p := old(users)[user]; users == old(users)[user := p.(knockedOut := p.knockedOut[pivotTime := liqQty])]
    {
      var p := users[user];
      users := users[user := p.(knockedOut := p.knockedOut[pivotTime := liqQty])];
    }

    // A position's times move on, and the crosses it may have missed become candidates.
    method UpdateLiqChange(user: User, l: PosChange) returns (cands: seq<Cand>, isPossiblyLive: bool)
      requires user in users
      modifies this`users
      ensures users == old(users)[user := Timed(old(users)[user], l)]
      ensures var p, q := old(users)[user], users[user];
        && q.latestUpdateTime >= l.time && q.latestUpdateTime >= p.latestUpdateTime
        && (q.latestUpdateTime == l.time || q.latestUpdateTime == p.latestUpdateTime)
        && q.timeFirstMint <= l.time && (p.timeFirstMint != 0 ==> q.timeFirstMint <= p.timeFirstMint)
        && (q.timeFirstMint == l.time || (q.timeFirstMint == p.timeFirstMint && p.timeFirstMint != 0))
        && p == q.(latestUpdateTime := p.latestUpdateTime, timeFirstMint := p.timeFirstMint)
      ensures SetOf(cands) == CandsOnChange(crosses, user, l)
      ensures l.changeType.Burn? ==> cands == []
      ensures l.changeType.Claim? || l.changeType.Recover? ==>
        cands == if l.pivotTime.Some? && l.pivotTime.value > 0 then [Cand(user, l.pivotTime.value)] else []
      ensures l.changeType.Mint? ==> forall x :: x in SetOf(cands) <==>
        exists c :: c in crosses && c.pivotTime <= l.time <= c.crossTime && x == Cand(user, c.pivotTime)
      ensures isPossiblyLive <==> l.changeType.Mint? || l.changeType.Burn?
    {
      hide CandsOnMint;
      var p := users[user];
      if l.time > p.latestUpdateTime {
        p := p.(latestUpdateTime := l.time);
      }
      if p.timeFirstMint == 0 || l.time < p.timeFirstMint {
        p := p.(timeFirstMint := l.time);
      }
      users := users[user := p];
      if l.changeType.Mint? {
        cands := ScrapePivotsCandsOnMint(crosses, l.time, user);
        return cands, true;
      } else if l.changeType.Burn? {
        return [], true;
      } else if l.pivotTime.Some? && l.pivotTime.value > 0 {
        SetOfAppend([], Cand(user, l.pivotTime.value));
        assert [] + [Cand(user, l.pivotTime.value)] == [Cand(user, l.pivotTime.value)];
        return [Cand(user, l.pivotTime.value)], false;
      } else {
        return [], false;
      }
    }

    // The estimate of the active liquidity from a change's flows.
    method EstimateLiq(user: User, l: PosChange)
      requires user in users && (l.changeType.Recover? ==> l.pivotTime.Some?)
      modifies this`users
      ensures users == old(users)[user := Estimated(old(users)[user], l)]
    {
      if (l.changeType.Mint? || l.changeType.Burn? || l.changeType.Recover?) && l.liq.Some? {
        var liq := l.liq.value;
        var activeLiq := users[user].active;
        UpdateActiveLiq(user, activeLiq + Truncate(liq));
        var afterLiq := users[user].active;
        if afterLiq < 0 {
          UpdateActiveLiq(user, 0);
          afterLiq := 0;
        }
        if l.changeType.Burn? && afterLiq > 0 && Abs(liq) * 0.10 > afterLiq as real {
          UpdateActiveLiq(user, 0);
        }
        if l.changeType.Recover? {
          UpdateActiveLiq(user, 0);
          UpdatePostKOLiq(user, l.pivotTime.value, 0);
        }
      }
    }

    // The first part of a position change: it is filed, and sent to the worker.
    method FileLiqChange(user: User, l: PosChange, pivotTime: int)
      requires Allowed(View(), FilePosition(user, l, pivotTime))
      modifies this
      ensures View() == After(old(View()), FilePosition(user, l, pivotTime))
      ensures user in users && users == old(users)[user := users[user]] && queue == old(queue) + [PosUpdate(user, l)]
      ensures var p, q := old(ForUser(users, user)), users[user];
        && q.mints == p.mints + (if l.changeType.Mint? then [SagaTx(l.time, pivotTime)] else [])
        && q.burns == p.burns + (if l.changeType.Burn? then [SagaTx(l.time, pivotTime)] else [])
        && p == q.(mints := p.mints, burns := p.burns)
    {
      MaterializeUser(user);
      var event := SagaTx(l.time, pivotTime);
      if l.changeType.Mint? {
        users := users[user := users[user].(mints := users[user].mints + [event])];
      } else if l.changeType.Burn? {
        users := users[user := users[user].(burns := users[user].burns + [event])];
      }
      queue := queue + [PosUpdate(user, l)];
      filing := Some(Filing(user, l));
      assert users == old(users)[user := Filed(ForUser(old(users), user), l, pivotTime)];
    }

    // The second part: its liquidity is estimated. The worker may come in between.
    method EstimateFiled(user: User, l: PosChange)
      requires filing == Some(Filing(user, l)) && user in users && (l.changeType.Recover? ==> l.pivotTime.Some?)
      modifies this
      ensures View() == After(old(View()), EstimatePosition)
    {
      hide Estimated;
      EstimateLiq(user, l);
      filing := None;
    }

    method ApplyToKnockout(user: User, l: PosChange, pivotTime: int)
      requires Allowed(View(), FilePosition(user, l, pivotTime))
      modifies this
      ensures View() == After(After(old(View()), FilePosition(user, l, pivotTime)), EstimatePosition)
    {
      hide Estimated, Filed;
      FileLiqChange(user, l, pivotTime);
      EstimateFiled(user, l);
    }

    method UpdateCross(c: SagaCross, order: seq<User>) returns (cands: seq<Cand>)
      requires Visits(order, Mints(users))
      modifies this`crosses
      ensures crosses == old(crosses) + [c]
      ensures NoneTwice(cands) && SetOf(cands) == CandsOnCross(Mints(users), c)
    {
      crosses := crosses + [c];
      cands := ScrapePivotsCandsOnCross(Mints(users), order, c);
    }

    // A cross is recorded, and sent to the worker; the candidates found are not used yet.
    method IngestKnockout(c: SagaCross, order: seq<User>)
      requires Visits(order, Mints(users)) && Allowed(View(), FileCross(c))
      modifies this
      ensures View() == After(old(View()), FileCross(c))
      ensures crosses == old(crosses) + [c] && queue == old(queue) + [CrossUpdate(c)]
      ensures users == old(users) && posts == old(posts) && alive == old(alive)
    {
      hide CandsOnCross, NoneTwice, SetOf;
      var ignored := UpdateCross(c, order);
      queue := queue + [CrossUpdate(c)];
    }

    // The worker: it takes the oldest update.
    method ProcessUpdate(order: seq<User>) returns (cands: seq<Cand>)
      requires queue != [] && Visits(order, Mints(users)) && (queue[0].PosUpdate? ==> queue[0].user in users)
      modifies this
      ensures Allowed(old(View()), WorkOff(cands)) && View() == After(old(View()), WorkOff(cands))
      ensures queue == old(queue)[1..]
      ensures match old(queue[0])
              case PosUpdate(user, l) =>
                && crosses == old(crosses) && users == old(users)[user := users[user]]
                && alive == old(alive) + (if l.changeType.Mint? || l.changeType.Burn? then {user} else {})
              case CrossUpdate(c) =>
                && crosses == old(crosses) + [c] && alive == old(alive) && posts == old(posts) + SetOf(cands)
                && forall x :: x in SetOf(cands) <==>
                     x.pivotTime == c.pivotTime && x.user in old(users) && AnyInReach(old(users)[x.user].mints, c)
    {
      hide CandsOnCross, NoneTwice, SetOf, Mints, CandsOnChange, Timed, CrossAll;
      var m := queue[0];
      queue := queue[1..];
      match m
      case PosUpdate(user, l) =>
        ProcessPosition(user, l);
        cands := [];
      case CrossUpdate(c) =>
        cands := ProcessCross(c, order);
    }

    method ProcessPosition(user: User, l: PosChange)
      requires user in users
      modifies this`users, this`posts, this`alive
      ensures View() == Processed(old(View()), PosUpdate(user, l), [])
      ensures user in users && users == old(users)[user := users[user]]
      ensures alive == old(alive) + if l.changeType.Mint? || l.changeType.Burn? then {user} else {}
    {
      hide CandsOnChange, Timed;
      var cands, isPossiblyLive := UpdateLiqChange(user, l);
      if isPossiblyLive {
        alive := alive + {user};
      }
      posts := posts + SetOf(cands);
    }

    // Each candidate of a cross has its active liquidity moved to the pivot.
    method ProcessCross(c: SagaCross, order: seq<User>) returns (cands: seq<Cand>)
      requires Visits(order, Mints(users))
      modifies this`users, this`crosses, this`posts
      ensures NoneTwice(cands) && SetOf(cands) == CandsOnCross(Mints(old(users)), c)
      ensures View() == Processed(old(View()), CrossUpdate(c), cands)
      ensures crosses == old(crosses) + [c] && posts == old(posts) + SetOf(cands)
      ensures forall x :: x in SetOf(cands) <==>
        x.pivotTime == c.pivotTime && x.user in old(users) && AnyInReach(old(users)[x.user].mints, c)
    {
      hide CandsOnCross, NoneTwice, SetOf, Mints, Crossed, CrossAll;
      CrossedUsersAre(users, c);
      cands := UpdateCross(c, order);
      CandsHavePivot(users, cands, c);
      ghost var before := users;
      NoneCrossed(before, c.pivotTime);
      for i := 0 to |cands|
        invariant users == CrossAll(before, cands[..i], c.pivotTime)
        invariant crosses == old(crosses) + [c] && posts == old(posts)
      {
        var cand := cands[i];
        assert cands[..i + 1] == cands[..i] + [cand];
        CrossNext(before, cands[..i], cand, c.pivotTime);
        MoveToPivot(cand);
      }
      assert cands[..|cands|] == cands;
      posts := posts + SetOf(cands);
    }

    method MoveToPivot(cand: Cand)
      modifies this`users
      ensures users == old(users)[cand.user := Crossed(ForUser(old(users), cand.user), cand.pivotTime)]
    {
      MaterializeUser(cand.user);
      var activeLiq := users[cand.user].active;
      UpdatePostKOLiq(cand.user, cand.pivotTime, activeLiq);
      UpdateActiveLiq(cand.user, 0);
      assert users == old(users)[cand.user := Crossed(ForUser(old(users), cand.user), cand.pivotTime)];
    }

    // The answer to a query for what a user has resting.
    method AnswerAlive(user: User, qty: int)
      requires Allowed(View(), RefreshAlive(user, qty))
      modifies this`users
      ensures View() == After(old(View()), RefreshAlive(user, qty))
    {
      MaterializeUser(user);
      UpdateActiveLiq(user, qty);
    }

    // The answer to a query for a pivot, when it says that the pivot is knocked out; other answers
    // change nothing.
    method AnswerPost(post: Cand, qty: int)
      requires Allowed(View(), RefreshPost(post, qty))
      modifies this`users
      ensures View() == After(old(View()), RefreshPost(post, qty))
    {
      MaterializeUser(post.user);
      UpdatePostKOLiq(post.user, post.pivotTime, qty);
    }
  }
}
