// Matching the mints and crosses of one knockout book, in either order and under any interleaving
// of the ingestion thread with the worker that takes messages off the update queue
// (model/knockout.go, controller/controller.go, controller/workers.go).
module KnockoutMatching {
  import opened Basics

  type User = int

  datatype SagaTx = SagaTx(txTime: int, pivotTime: int)
  datatype SagaCross = SagaCross(crossTime: int, pivotTime: int)
  datatype Cand = Cand(user: User, pivotTime: int)

  // What the ingestion thread leaves for the worker: a mint of a user, or a cross.
  datatype Msg = PosMsg(user: User, time: int) | CrossMsg(cross: SagaCross)

  datatype State = State(
    mints: map<User, seq<SagaTx>>,
    crosses: seq<SagaCross>,
    queue: seq<Msg>,
    emitted: set<Cand>)

  const NEW_STATE := State(map[], [], [], {})

  // May the liquidity minted at this time be part of what the cross knocked out?
  predicate IsMintMaybeInPivot(mintTime: int, pivotTime: int, knockoutTime: int) {
    mintTime >= pivotTime && mintTime <= knockoutTime
  }

  predicate CrossTakes(m: SagaTx, c: SagaCross) {
    || m.pivotTime == c.pivotTime
    || IsMintMaybeInPivot(m.pivotTime, c.pivotTime, c.crossTime)
    || IsMintMaybeInPivot(m.txTime, c.pivotTime, c.crossTime)
  }

  function MintsOf(mints: map<User, seq<SagaTx>>, user: User): seq<SagaTx> {
    if user in mints then mints[user] else []
  }

  // Users a cross may concern, in the order they are visited.
  ghost predicate AnyTaken(mints: seq<SagaTx>, c: SagaCross) {
    exists i :: 0 <= i < |mints| && CrossTakes(mints[i], c)
  }

  // Some order was placed in the epoch of the cross, or has its pivot or its own time between the
  // pivot and the time of the cross.
  ghost predicate AnyInReach(mints: seq<SagaTx>, c: SagaCross) {
    exists m :: m in mints &&
      (m.pivotTime == c.pivotTime || c.pivotTime <= m.pivotTime <= c.crossTime || c.pivotTime <= m.txTime <= c.crossTime)
  }

  lemma TakenIsInReach(mints: seq<SagaTx>, c: SagaCross)
    ensures AnyTaken(mints, c) <==> AnyInReach(mints, c)
  {
    if AnyInReach(mints, c) {
      var m :| m in mints && (m.pivotTime == c.pivotTime || c.pivotTime <= m.pivotTime <= c.crossTime || c.pivotTime <= m.txTime <= c.crossTime);
      var i :| 0 <= i < |mints| && mints[i] == m;
      assert CrossTakes(mints[i], c);
    }
  }

  ghost function CandsOnCross(mints: map<User, seq<SagaTx>>, c: SagaCross): set<Cand> {
    set u | u in mints && AnyTaken(mints[u], c) :: Cand(u, c.pivotTime)
  }

  ghost function CandsOnMint(crosses: seq<SagaCross>, user: User, time: int): set<Cand> {
    set i | 0 <= i < |crosses| && IsMintMaybeInPivot(time, crosses[i].pivotTime, crosses[i].crossTime)
      :: Cand(user, crosses[i].pivotTime)
  }

  // ---------------------------------------------------------------------------------------------
  // Steps. Every lock-protected region is one; the ingestion thread files a mint or cross first
  // and sends the message afterwards, and the worker may come in between.

  datatype Action =
    | AppendMint(user: User, tx: SagaTx)
    | SendMint(user: User, tx: SagaTx)
    | RecordCross(cross: SagaCross)
    | SendCross(cross: SagaCross)
    | Process

  predicate Enabled(s: State, a: Action) {
    match a
    case AppendMint(_, _) => true
    case SendMint(user, tx) => tx in MintsOf(s.mints, user)
    case RecordCross(_) => true
    case SendCross(c) => c in s.crosses
    case Process => s.queue != []
  }

  // The worker records a cross a second time before it looks for candidates.
  ghost function Apply(s: State, a: Action): State
    requires Enabled(s, a)
  {
    match a
    case AppendMint(user, tx) => s.(mints := s.mints[user := MintsOf(s.mints, user) + [tx]])
    case SendMint(user, tx) => s.(queue := s.queue + [PosMsg(user, tx.txTime)])
    case RecordCross(c) => s.(crosses := s.crosses + [c])
    case SendCross(c) => s.(queue := s.queue + [CrossMsg(c)])
    case Process =>
      match s.queue[0]
      case PosMsg(user, time) =>
        s.(queue := s.queue[1..], emitted := s.emitted + CandsOnMint(s.crosses, user, time))
      case CrossMsg(c) =>
        s.(queue := s.queue[1..], crosses := s.crosses + [c], emitted := s.emitted + CandsOnCross(s.mints, c))
  }

  ghost predicate ValidRun(run: seq<Action>)
    decreases |run|, 0
  {
    run == [] || (ValidRun(run[..|run| - 1]) && Enabled(Exec(run[..|run| - 1]), run[|run| - 1]))
  }

  ghost function Exec(run: seq<Action>): State
    requires ValidRun(run)
    decreases |run|, 1
  {
    if run == [] then NEW_STATE else Apply(Exec(run[..|run| - 1]), run[|run| - 1])
  }

  // ---------------------------------------------------------------------------------------------
  // Every matching pair is found

  // The user of a mint that was sent is a candidate of a cross that was sent, or the message of
  // one of the two is still to come.
  ghost predicate Found(s: State, user: User, tx: SagaTx, c: SagaCross) {
    Cand(user, c.pivotTime) in s.emitted || PosMsg(user, tx.txTime) in s.queue || CrossMsg(c) in s.queue
  }

  lemma {:induction false} StillFiled(run: seq<Action>, a: Action)
    requires ValidRun(run) && a in run
    ensures a.SendMint? ==> a.tx in MintsOf(Exec(run).mints, a.user)
    ensures a.SendCross? ==> a.cross in Exec(run).crosses
  {
    var init, last := run[..|run| - 1], run[|run| - 1];
    if a in init { StillFiled(init, a); }
    MintsStay(Exec(init), last);
  }

  lemma MintsStay(s: State, a: Action)
    requires Enabled(s, a)
    ensures forall u, tx :: tx in MintsOf(s.mints, u) ==> tx in MintsOf(Apply(s, a).mints, u)
    ensures forall c :: c in s.crosses ==> c in Apply(s, a).crosses
  {
  }

  lemma ProcessFinds(s: State, user: User, tx: SagaTx, c: SagaCross)
    requires s.queue != [] && tx in MintsOf(s.mints, user) && c in s.crosses
    requires IsMintMaybeInPivot(tx.txTime, c.pivotTime, c.crossTime) && Found(s, user, tx, c)
    ensures Found(Apply(s, Process), user, tx, c)
  {
    var t := Apply(s, Process);
    if s.queue[0] == PosMsg(user, tx.txTime) {
      var i :| 0 <= i < |s.crosses| && s.crosses[i] == c;
      assert Cand(user, c.pivotTime) in CandsOnMint(s.crosses, user, tx.txTime);
    } else if s.queue[0] == CrossMsg(c) {
      var i :| 0 <= i < |s.mints[user]| && s.mints[user][i] == tx;
      assert CrossTakes(s.mints[user][i], c);
      assert Cand(user, c.pivotTime) in CandsOnCross(s.mints, c);
    } else {
      assert forall m :: m in s.queue && m != s.queue[0] ==> m in s.queue[1..];
    }
  }

  lemma {:induction false} PairIsFound(run: seq<Action>, user: User, tx: SagaTx, c: SagaCross)
    requires ValidRun(run) && SendMint(user, tx) in run && SendCross(c) in run
    requires c.pivotTime <= tx.txTime <= c.crossTime
    ensures Found(Exec(run), user, tx, c)
  {
    hide CandsOnMint, CandsOnCross;
    var init, last := run[..|run| - 1], run[|run| - 1];
    if SendMint(user, tx) in init && SendCross(c) in init {
      PairIsFound(init, user, tx, c);
      if last.Process? {
        StillFiled(init, SendMint(user, tx));
        StillFiled(init, SendCross(c));
        ProcessFinds(Exec(init), user, tx, c);
      }
    }
  }

  // Whatever the interleaving: once the worker has caught up, every user with a mint between the
  // pivot and the time of a cross is a candidate of that cross.
  lemma {:induction false} EveryMatchIsEmitted(run: seq<Action>, user: User, tx: SagaTx, c: SagaCross)
    requires ValidRun(run) && Exec(run).queue == []
    requires SendMint(user, tx) in run && SendCross(c) in run
    requires c.pivotTime <= tx.txTime <= c.crossTime
    ensures Cand(user, c.pivotTime) in Exec(run).emitted
  {
    PairIsFound(run, user, tx, c);
  }

  // ... and nobody else: of a candidate a mint is filed that a recorded cross of its pivot reaches.
  ghost predicate Justified(s: State, cand: Cand) {
    exists c :: c in s.crosses && c.pivotTime == cand.pivotTime && AnyInReach(MintsOf(s.mints, cand.user), c)
  }

  ghost predicate QueueFiled(s: State) {
    forall m :: m in s.queue ==>
      match m
      case PosMsg(user, time) => exists i :: 0 <= i < |MintsOf(s.mints, user)| && MintsOf(s.mints, user)[i].txTime == time
      case CrossMsg(c) => c in s.crosses
  }

  lemma JustifiedStays(s: State, a: Action, cand: Cand)
    requires Enabled(s, a) && Justified(s, cand)
    ensures Justified(Apply(s, a), cand)
  {
    MintsStay(s, a);
  }

  lemma FiledStays(s: State, a: Action)
    requires Enabled(s, a) && QueueFiled(s)
    ensures QueueFiled(Apply(s, a))
  {
    var t := Apply(s, a);
    forall m | m in t.queue
      ensures match m
              case PosMsg(user, time) => exists i :: 0 <= i < |MintsOf(t.mints, user)| && MintsOf(t.mints, user)[i].txTime == time
              case CrossMsg(c) => c in t.crosses
    {
      if m in s.queue {
        if m.PosMsg? {
          var i :| 0 <= i < |MintsOf(s.mints, m.user)| && MintsOf(s.mints, m.user)[i].txTime == m.time;
          assert MintsOf(t.mints, m.user)[i].txTime == m.time;
        }
      } else if a.SendMint? {
        var i :| 0 <= i < |MintsOf(s.mints, a.user)| && MintsOf(s.mints, a.user)[i] == a.tx;
        assert MintsOf(t.mints, a.user)[i].txTime == a.tx.txTime;
      }
    }
  }

  lemma {:induction false} OnlyMatchesAreEmitted(run: seq<Action>)
    requires ValidRun(run)
    ensures QueueFiled(Exec(run)) && forall cand :: cand in Exec(run).emitted ==> Justified(Exec(run), cand)
  {
    if run != [] {
      var init, a := run[..|run| - 1], run[|run| - 1];
      OnlyMatchesAreEmitted(init);
      var s, t := Exec(init), Exec(run);
      FiledStays(s, a);
      forall cand | cand in t.emitted ensures Justified(t, cand) {
        if cand in s.emitted {
          JustifiedStays(s, a, cand);
        } else {
          NewIsJustified(s, cand);
          JustifiedStays(s, a, cand);
        }
      }
    }
  }

  lemma NewIsJustified(s: State, cand: Cand)
    requires s.queue != [] && QueueFiled(s) && cand in Apply(s, Process).emitted && cand !in s.emitted
    ensures Justified(s, cand)
  {
    assert s.queue[0] in s.queue;
    match s.queue[0]
    case PosMsg(user, time) =>
      var i :| 0 <= i < |MintsOf(s.mints, user)| && MintsOf(s.mints, user)[i].txTime == time;
      var j :| 0 <= j < |s.crosses| && IsMintMaybeInPivot(time, s.crosses[j].pivotTime, s.crosses[j].crossTime)
        && cand == Cand(user, s.crosses[j].pivotTime);
      assert CrossTakes(MintsOf(s.mints, user)[i], s.crosses[j]);
      TakenIsInReach(MintsOf(s.mints, user), s.crosses[j]);
    case CrossMsg(c) =>
      TakenIsInReach(s.mints[cand.user], c);
  }

  // ---------------------------------------------------------------------------------------------
  // The loops that look for candidates

  ghost function SetOf(cands: seq<Cand>): set<Cand> {
    set i | 0 <= i < |cands| :: cands[i]
  }

  // The crosses a new mint may have been taken by, one candidate each.
  method ScrapePivotsCandsOnMint(crosses: seq<SagaCross>, mintTime: int, user: User) returns (cands: seq<Cand>)
    ensures SetOf(cands) == CandsOnMint(crosses, user, mintTime)
    ensures forall x :: x in SetOf(cands) <==>
      exists c :: c in crosses && c.pivotTime <= mintTime <= c.crossTime && x == Cand(user, c.pivotTime)
  {
    cands := [];
    for i := 0 to |crosses|
      invariant SetOf(cands) == CandsOnMint(crosses[..i], user, mintTime)
    {
      var cross := crosses[i];
      MintCandsNext(crosses, i, user, mintTime);
      if IsMintMaybeInPivot(mintTime, cross.pivotTime, cross.crossTime) {
        SetOfAppend(cands, Cand(user, cross.pivotTime));
        cands := cands + [Cand(user, cross.pivotTime)];
      }
    }
    assert crosses[..|crosses|] == crosses;
    MintCandsAre(crosses, user, mintTime);
  }

  lemma MintCandsAre(crosses: seq<SagaCross>, user: User, time: int)
    ensures forall x :: x in CandsOnMint(crosses, user, time) <==>
      exists c :: c in crosses && c.pivotTime <= time <= c.crossTime && x == Cand(user, c.pivotTime)
  {
    forall c | c in crosses && c.pivotTime <= time <= c.crossTime ensures Cand(user, c.pivotTime) in CandsOnMint(crosses, user, time) {
      var i :| 0 <= i < |crosses| && crosses[i] == c;
    }
  }

  lemma SetOfAppend(cands: seq<Cand>, x: Cand)
    ensures SetOf(cands + [x]) == SetOf(cands) + {x}
  {
    assert (cands + [x])[|cands|] == x;
    forall i | 0 <= i < |cands| ensures (cands + [x])[i] == cands[i] {}
  }

  lemma MintCandsNext(crosses: seq<SagaCross>, i: nat, user: User, time: int)
    requires i < |crosses|
    ensures CandsOnMint(crosses[..i + 1], user, time) == CandsOnMint(crosses[..i], user, time) +
      if IsMintMaybeInPivot(time, crosses[i].pivotTime, crosses[i].crossTime) then {Cand(user, crosses[i].pivotTime)} else {}
  {
    assert crosses[..i + 1] == crosses[..i] + [crosses[i]];
    var a, b := crosses[..i + 1], crosses[..i];
    forall x | x in CandsOnMint(b, user, time) ensures x in CandsOnMint(a, user, time) {
      var j :| 0 <= j < |b| && IsMintMaybeInPivot(time, b[j].pivotTime, b[j].crossTime) && x == Cand(user, b[j].pivotTime);
      assert a[j] == b[j];
    }
    assert a[i] == crosses[i];
  }

  // The users a cross may have knocked out: every one of them once, however many mints they have.
  // A map is visited in no particular order; `order` is the one it happens to be.
  method ScrapePivotsCandsOnCross(users: map<User, seq<SagaTx>>, order: seq<User>,
          cross: SagaCross) returns (cands: seq<Cand>)
    requires Visits(order, users)
    ensures NoneTwice(cands) && SetOf(cands) == CandsOnCross(users, cross)
    ensures forall x :: x in SetOf(cands) <==> x.pivotTime == cross.pivotTime && x.user in users && AnyInReach(users[x.user], cross)
  {
    hide AnyTaken, AnyInReach;
    cands := [];
    ghost var done: map<User, seq<SagaTx>> := map[];
    for i := 0 to |order|
      invariant NoneTwice(cands) && SetOf(cands) == CandsOnCross(done, cross)
      invariant forall u :: u in done <==> u in order[..i]
      invariant forall u :: u in done ==> u in users && done[u] == users[u]
    {
      var userAddr := order[i];
      VisitedOnce(order, i);
      assert userAddr in order;
      cands := ScrapeUser(users[userAddr], userAddr, cross, cands, done);
      CrossCandsNext(done, userAddr, users[userAddr], cross);
      done := done[userAddr := users[userAddr]];
      assert order[..i + 1] == order[..i] + [userAddr];
    }
    assert order[..|order|] == order;
    DoneAll(done, users);
    CrossCandsAre(users, cross);
  }

  lemma CrossCandsAre(mints: map<User, seq<SagaTx>>, c: SagaCross)
    ensures forall x :: x in CandsOnCross(mints, c) <==>
      x.pivotTime == c.pivotTime && x.user in mints && AnyInReach(mints[x.user], c)
  {
    hide AnyTaken, AnyInReach;
    forall u | u in mints ensures AnyTaken(mints[u], c) <==> AnyInReach(mints[u], c) {
      TakenIsInReach(mints[u], c);
    }
    forall x: Cand
      ensures x in CandsOnCross(mints, c) <==> x.pivotTime == c.pivotTime && x.user in mints && AnyInReach(mints[x.user], c)
    {
      assert x == Cand(x.user, x.pivotTime);
    }
  }

  ghost predicate Visits(order: seq<User>, users: map<User, seq<SagaTx>>) {
    NoneTwice(order) && forall u :: u in order <==> u in users
  }

  lemma {:induction false} VisitedOnce(order: seq<User>, i: nat)
    requires NoneTwice(order) && i < |order|
    ensures order[i] !in order[..i]
  {
    if i < |order| - 1 {
      VisitedOnce(order[..|order| - 1], i);
      assert order[..|order| - 1][..i] == order[..i];
    }
  }

  lemma DoneAll(done: map<User, seq<SagaTx>>, users: map<User, seq<SagaTx>>)
    requires (forall u :: u in done <==> u in users) && forall u :: u in done ==> u in users && done[u] == users[u]
    ensures done == users
  {
    forall u | u in done ensures u in users && done[u] == users[u] {}
    forall u | u in users ensures u in done {}
  }

  lemma CrossCandsNext(done: map<User, seq<SagaTx>>, user: User, mints: seq<SagaTx>, c: SagaCross)
    requires user !in done
    ensures CandsOnCross(done[user := mints], c) == CandsOnCross(done, c) + if AnyTaken(mints, c) then {Cand(user, c.pivotTime)} else {}
  {
    hide AnyTaken;
    var next := done[user := mints];
    forall x | x in CandsOnCross(done, c) ensures x in CandsOnCross(next, c) {
      assert x.user in next && next[x.user] == done[x.user];
    }
    if AnyTaken(mints, c) {
      assert user in next && AnyTaken(next[user], c);
    }
  }

  // The inner loop, over the mints of one user.
  method ScrapeUser(mints: seq<SagaTx>, userAddr: User, cross: SagaCross, before: seq<Cand>, ghost done: map<User,
          seq<SagaTx>>)
    returns (cands: seq<Cand>)
    requires NoneTwice(before) && userAddr !in done && SetOf(before) == CandsOnCross(done, cross)
    ensures NoneTwice(cands)
    ensures SetOf(cands) == SetOf(before) + if AnyTaken(mints, cross) then {Cand(userAddr, cross.pivotTime)} else {}
  {
    hide CrossTakes;
    cands := before;
    var cand := Cand(userAddr, cross.pivotTime);
    assert cand !in CandsOnCross(done, cross);
    for i := 0 to |mints|
      invariant NoneTwice(cands)
      invariant SetOf(cands) == SetOf(before) + if AnyTaken(mints[..i], cross) then {cand} else {}
    {
      var mint := mints[i];
      AnyTakenNext(mints, i, cross);
      InSetOf(cands, cand);
      if CrossTakes(mint, cross) && cand !in cands {
        SetOfAppend(cands, cand);
        assert (cands + [cand])[..|cands|] == cands;
        cands := cands + [cand];
      }
    }
    assert mints[..|mints|] == mints;
  }

  lemma InSetOf(cands: seq<Cand>, x: Cand)
    ensures x in cands <==> x in SetOf(cands)
  {
  }

  lemma AnyTakenNext(mints: seq<SagaTx>, i: nat, c: SagaCross)
    requires i < |mints|
    ensures AnyTaken(mints[..i + 1], c) <==> AnyTaken(mints[..i], c) || CrossTakes(mints[i], c)
  {
    hide CrossTakes;
    var a, b := mints[..i + 1], mints[..i];
    assert a[i] == mints[i];
    forall j | 0 <= j < i ensures a[j] == b[j] {}
  }
}
