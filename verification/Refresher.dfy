// The liquidity refresher of controller/refresher.go: any number of workers share an urgent
// queue, a slow queue and the `pending` map. Every lock-protected region, channel operation and
// query is one atomic step; a run is any interleaving of such steps.
module Refresher {

  // The hash of a handle stands for the position or tick it refreshes. Handles of different
  // kinds may share a hash, so a handle is more than its hash.
  type Hash = nat

  datatype Handle = Handle(hash: Hash, kind: nat, skippable: bool)

  // Where a worker is inside its loop.
  datatype Worker =
    | Idle                                     // about to try the urgent queue
    | Waiting                                  // saw no urgent work, selects on both queues
    | Popped(hndl: Handle, fromSlow: bool)     // holds a handle it has not checked yet
    | Querying(hndl: Handle)                   // inside RefreshQuery
    | Returned(hndl: Handle)                   // RefreshQuery is back, entry not deleted yet
    | Panicked(hndl: Handle)                   // RefreshQuery panicked, handle not requeued yet

  datatype State = State(
    workUrgent: seq<Handle>,
    workSlow: seq<Handle>,
    pending: map<Hash, bool>,
    paused: bool,
    workers: seq<Worker>)

  datatype Action =
    | SetPause(pause: bool)
    | Request(hndl: Handle, urgent: bool, recent: bool)
    | Poll(w: nat)
    | PopUrgent(w: nat)
    | PopSlow(w: nat)
    | Check(w: nat)
    | QueryReturns(w: nat)
    | QueryPanics(w: nat)
    | Clear(w: nat)
    | Requeue(w: nat)

  function Init(workers: nat): State {
    State([], [], map[], false, seq(workers, _ => Idle))
  }

  predicate Enabled(s: State, a: Action) {
    match a
    case SetPause(_) => true
    case Request(_, _, _) => true
    case Poll(w) => w < |s.workers| && s.workers[w].Idle? && s.workUrgent == []
    case PopUrgent(w) => w < |s.workers| && (s.workers[w].Idle? || s.workers[w].Waiting?) && s.workUrgent != []
    case PopSlow(w) => w < |s.workers| && s.workers[w].Waiting? && s.workSlow != []
    case Check(w) => w < |s.workers| && s.workers[w].Popped?
    case QueryReturns(w) => w < |s.workers| && s.workers[w].Querying?
    case QueryPanics(w) => w < |s.workers| && s.workers[w].Querying?
    case Clear(w) => w < |s.workers| && s.workers[w].Returned?
    case Requeue(w) => w < |s.workers| && s.workers[w].Panicked?
  }

  // A request is dropped while the refresher is paused, and when it is a skippable refresh of
  // something refreshed a moment ago.
  predicate Filtered(s: State, hndl: Handle, recent: bool) {
    (recent && hndl.skippable) || s.paused
  }

  function RequestRefresh(s: State, hndl: Handle, urgent: bool, recent: bool): State {
    if Filtered(s, hndl, recent) then s
    else if hndl.hash !in s.pending || (urgent && !s.pending[hndl.hash]) then
      var t := s.(pending := s.pending[hndl.hash := urgent]);
      if urgent then t.(workUrgent := s.workUrgent + [hndl]) else t.(workSlow := s.workSlow + [hndl])
    else s
  }

  // A popped handle is skipped when nobody waits for it any more, or when it is the slow copy of
  // a request that has been upgraded to urgent.
  predicate Skips(s: State, w: Worker)
    requires w.Popped?
  {
    w.hndl.hash !in s.pending || (w.fromSlow && s.pending[w.hndl.hash])
  }

  function Apply(s: State, a: Action): State
    requires Enabled(s, a)
  {
    match a
    case SetPause(pause) => s.(paused := pause)
    case Request(hndl, urgent, recent) => RequestRefresh(s, hndl, urgent, recent)
    case Poll(w) => s.(workers := s.workers[w := Waiting])
    case PopUrgent(w) =>
      s.(workUrgent := s.workUrgent[1..], workers := s.workers[w := Popped(s.workUrgent[0], false)])
    case PopSlow(w) =>
      s.(workSlow := s.workSlow[1..], workers := s.workers[w := Popped(s.workSlow[0], true)])
    case Check(w) =>
      s.(workers := s.workers[w := if Skips(s, s.workers[w]) then Idle else Querying(s.workers[w].hndl)])
    case QueryReturns(w) => s.(workers := s.workers[w := Returned(s.workers[w].hndl)])
    case QueryPanics(w) => s.(workers := s.workers[w := Panicked(s.workers[w].hndl)])
    case Clear(w) =>
      s.(pending := s.pending - {s.workers[w].hndl.hash}, workers := s.workers[w := Idle])
    case Requeue(w) =>
      s.(workUrgent := s.workUrgent + [s.workers[w].hndl], workers := s.workers[w := Idle])
  }

  // ---------------------------------------------------------------------------------------------
  // Runs

  predicate ValidRun(s: State, run: seq<Action>)
    decreases |run|
  {
    run == [] || (Enabled(s, run[0]) && ValidRun(Apply(s, run[0]), run[1..]))
  }

  function Exec(s: State, run: seq<Action>): State
    requires ValidRun(s, run)
    decreases |run|
  {
    if run == [] then s else Exec(Apply(s, run[0]), run[1..])
  }

  // Nothing is queued and every worker is looking for work.
  predicate Quiescent(s: State) {
    && s.workUrgent == []
    && s.workSlow == []
    && forall w :: 0 <= w < |s.workers| ==> s.workers[w].Idle? || s.workers[w].Waiting?
  }

  // Some step of the run deletes the pending entry of h.
  predicate ClearsIn(s: State, run: seq<Action>, h: Hash)
    requires ValidRun(s, run)
    decreases |run|
  {
    run != [] &&
    ((run[0].Clear? && s.workers[run[0].w].hndl.hash == h) || ClearsIn(Apply(s, run[0]), run[1..], h))
  }

  // Some step of the run is the successful return of a query for h.
  predicate CompletesIn(s: State, run: seq<Action>, h: Hash)
    requires ValidRun(s, run)
    decreases |run|
  {
    run != [] &&
    ((run[0].QueryReturns? && s.workers[run[0].w].hndl.hash == h) || CompletesIn(Apply(s, run[0]), run[1..], h))
  }

  // ---------------------------------------------------------------------------------------------
  // The invariant: every pending hash has a live handle that no check will skip

  ghost predicate InQueue(q: seq<Handle>, h: Hash) {
    exists i :: 0 <= i < |q| && q[i].hash == h
  }

  predicate HoldsUrgent(w: Worker, h: Hash) {
    match w
    case Popped(x, fromSlow) => x.hash == h && !fromSlow
    case Querying(x) => x.hash == h
    case Returned(x) => x.hash == h
    case Panicked(x) => x.hash == h
    case _ => false
  }

  predicate HoldsSlow(w: Worker, h: Hash) {
    w.Popped? && w.fromSlow && w.hndl.hash == h
  }

  ghost predicate LiveUrgent(s: State, h: Hash) {
    InQueue(s.workUrgent, h) || exists w :: 0 <= w < |s.workers| && HoldsUrgent(s.workers[w], h)
  }

  ghost predicate LiveSlow(s: State, h: Hash) {
    InQueue(s.workSlow, h) || exists w :: 0 <= w < |s.workers| && HoldsSlow(s.workers[w], h)
  }

  ghost predicate Live(s: State, h: Hash)
    requires h in s.pending
  {
    LiveUrgent(s, h) || (!s.pending[h] && LiveSlow(s, h))
  }

  ghost predicate Inv(s: State) {
    forall h :: h in s.pending ==> Live(s, h)
  }

  // A worker changes what it holds and nothing else: whoever was alive in another worker or in a
  // queue still is.
  lemma LiveUrgentFrame(s: State, t: State, w: nat, h: Hash)
    requires w < |s.workers| && |t.workers| == |s.workers| && t.workers == s.workers[w := t.workers[w]]
    requires LiveUrgent(s, h)
    requires InQueue(s.workUrgent, h) ==> InQueue(t.workUrgent, h) || HoldsUrgent(t.workers[w], h)
    requires HoldsUrgent(s.workers[w], h) ==> InQueue(t.workUrgent, h) || HoldsUrgent(t.workers[w], h)
    ensures LiveUrgent(t, h)
  {
    if !InQueue(s.workUrgent, h) {
      var v :| 0 <= v < |s.workers| && HoldsUrgent(s.workers[v], h);
      if v != w {
        assert HoldsUrgent(t.workers[v], h);
      }
    }
  }

  lemma LiveSlowFrame(s: State, t: State, w: nat, h: Hash)
    requires w < |s.workers| && |t.workers| == |s.workers| && t.workers == s.workers[w := t.workers[w]]
    requires LiveSlow(s, h)
    requires InQueue(s.workSlow, h) ==> InQueue(t.workSlow, h) || HoldsSlow(t.workers[w], h)
    requires HoldsSlow(s.workers[w], h) ==> HoldsSlow(t.workers[w], h) || HoldsUrgent(t.workers[w], h)
    ensures LiveSlow(t, h) || LiveUrgent(t, h)
  {
    if !InQueue(s.workSlow, h) {
      var v :| 0 <= v < |s.workers| && HoldsSlow(s.workers[v], h);
      if v != w {
        assert HoldsSlow(t.workers[v], h);
      }
    }
  }

  lemma PopKeepsQueued(q: seq<Handle>, h: Hash)
    requires q != [] && InQueue(q, h)
    ensures q[0].hash == h || InQueue(q[1..], h)
  {
    var i :| 0 <= i < |q| && q[i].hash == h;
    if i > 0 {
      assert q[1..][i - 1].hash == h;
    }
  }

  lemma PushKeepsQueued(q: seq<Handle>, x: Handle, h: Hash)
    requires InQueue(q, h) || x.hash == h
    ensures InQueue(q + [x], h)
  {
    if x.hash == h {
      assert (q + [x])[|q|].hash == h;
    } else {
      var i :| 0 <= i < |q| && q[i].hash == h;
      assert (q + [x])[i].hash == h;
    }
  }

  lemma RequestKeepsLive(s: State, hndl: Handle, urgent: bool, recent: bool, h: Hash)
    requires Inv(s) && h in RequestRefresh(s, hndl, urgent, recent).pending
    ensures Live(RequestRefresh(s, hndl, urgent, recent), h)
  {
    var t := RequestRefresh(s, hndl, urgent, recent);
    if t != s {
      if urgent {
        if InQueue(s.workUrgent, h) || h == hndl.hash { PushKeepsQueued(s.workUrgent, hndl, h); }
      } else {
        if InQueue(s.workSlow, h) || h == hndl.hash { PushKeepsQueued(s.workSlow, hndl, h); }
      }
      if h != hndl.hash {
        assert Live(s, h);
      }
    }
  }

  // Worker steps other than Clear never touch `pending`; Clear only forgets one hash.
  lemma WorkerStepKeepsLive(s: State, a: Action, h: Hash)
    requires Inv(s) && Enabled(s, a) && !a.SetPause? && !a.Request?
    requires h in Apply(s, a).pending
    ensures Live(Apply(s, a), h)
  {
    var t := Apply(s, a);
    assert Live(s, h) && t.pending[h] == s.pending[h];
    if a.PopUrgent? && InQueue(s.workUrgent, h) { PopKeepsQueued(s.workUrgent, h); }
    if a.PopSlow? && InQueue(s.workSlow, h) { PopKeepsQueued(s.workSlow, h); }
    if a.Requeue? && (InQueue(s.workUrgent, h) || s.workers[a.w].hndl.hash == h) {
      PushKeepsQueued(s.workUrgent, s.workers[a.w].hndl, h);
    }
    if LiveUrgent(s, h) {
      LiveUrgentFrame(s, t, a.w, h);
    } else {
      LiveSlowFrame(s, t, a.w, h);
    }
  }

  lemma StepKeepsInv(s: State, a: Action)
    requires Inv(s) && Enabled(s, a)
    ensures Inv(Apply(s, a))
  {
    forall h | h in Apply(s, a).pending
      ensures Live(Apply(s, a), h)
    {
      match a
      case SetPause(_) => assert Live(s, h);
      case Request(hndl, urgent, recent) => RequestKeepsLive(s, hndl, urgent, recent, h);
      case _ => WorkerStepKeepsLive(s, a, h);
    }
  }

  lemma {:induction false} RunKeepsInv(s: State, run: seq<Action>)
    requires Inv(s) && ValidRun(s, run)
    ensures Inv(Exec(s, run))
    decreases |run|
  {
    if run != [] {
      StepKeepsInv(s, run[0]);
      RunKeepsInv(Apply(s, run[0]), run[1..]);
    }
  }

  // In every reachable state each pending hash has a handle no check will skip, so once the
  // queues are empty and the workers are looking for work nothing is pending.
  lemma {:induction false} NothingPendingAtQuiescence(workers: nat, run: seq<Action>)
    requires ValidRun(Init(workers), run)
    ensures Inv(Exec(Init(workers), run))
    ensures Quiescent(Exec(Init(workers), run)) ==> Exec(Init(workers), run).pending == map[]
  {
    RunKeepsInv(Init(workers), run);
    QuiescentIsDrained(Exec(Init(workers), run));
  }

  lemma QuiescentIsDrained(s: State)
    requires Inv(s)
    ensures Quiescent(s) ==> s.pending == map[]
  {
    if s.pending != map[] {
      var h :| h in s.pending;
      assert Live(s, h);
    }
  }

  // ---------------------------------------------------------------------------------------------
  // What a request is worth

  // Only deleting the entry of h takes h out of `pending`.
  lemma {:induction false} PendingUntilCleared(s: State, run: seq<Action>, h: Hash)
    requires ValidRun(s, run) && h in s.pending && !ClearsIn(s, run, h)
    ensures h in Exec(s, run).pending
    decreases |run|
  {
    if run != [] {
      PendingUntilCleared(Apply(s, run[0]), run[1..], h);
    }
  }

  // Some worker is between the return of its query for h and the deletion of the entry.
  predicate ReturnedFor(s: State, h: Hash) {
    exists w :: 0 <= w < |s.workers| && s.workers[w].Returned? && s.workers[w].hndl.hash == h
  }

  lemma {:induction false} ClearNeedsReturn(s: State, run: seq<Action>, h: Hash)
    requires ValidRun(s, run) && !ReturnedFor(s, h) && ClearsIn(s, run, h)
    ensures CompletesIn(s, run, h)
    decreases |run|
  {
    var a := run[0];
    if !(a.QueryReturns? && s.workers[a.w].hndl.hash == h) {
      var t := Apply(s, a);
      assert forall w :: 0 <= w < |s.workers| && t.workers[w] != s.workers[w] ==>
        !(t.workers[w].Returned? && t.workers[w].hndl.hash == h);
      ClearNeedsReturn(t, run[1..], h);
    }
  }

  // Every request that is not filtered leaves its hash pending, whether or not it was queued
  // again, and by the time the refresher is quiescent that entry has been cleared.
  lemma {:induction false} AcceptedRequestIsCleared(s: State, hndl: Handle, urgent: bool, recent: bool, run: seq<Action>)
    requires Inv(s) && !Filtered(s, hndl, recent)
    requires var t := RequestRefresh(s, hndl, urgent, recent); ValidRun(t, run) && Quiescent(Exec(t, run))
    ensures ClearsIn(RequestRefresh(s, hndl, urgent, recent), run, hndl.hash)
  {
    var t := RequestRefresh(s, hndl, urgent, recent);
    StepKeepsInv(s, Request(hndl, urgent, recent));
    RunKeepsInv(t, run);
    QuiescentIsDrained(Exec(t, run));
    if !ClearsIn(t, run, hndl.hash) {
      PendingUntilCleared(t, run, hndl.hash);
    }
  }

  // An urgent request is urgent from then on: whether its hash was new, waiting, or had its slow
  // copy queued, until its entry is deleted it stays marked urgent, and an urgent copy is queued or
  // a handle is in the hands of a worker that will not skip it.
  lemma {:induction false} UrgentUntilCleared(s: State, hndl: Handle, recent: bool, run: seq<Action>)
    requires Inv(s) && !s.paused && !(recent && hndl.skippable)
    requires var t := RequestRefresh(s, hndl, true, recent); ValidRun(t, run) && !ClearsIn(t, run, hndl.hash)
    ensures var end := Exec(RequestRefresh(s, hndl, true, recent), run);
      && hndl.hash in end.pending && end.pending[hndl.hash]
      && ((exists i :: 0 <= i < |end.workUrgent| && end.workUrgent[i].hash == hndl.hash) ||
          (exists w :: 0 <= w < |end.workers| && HoldsUrgent(end.workers[w], hndl.hash)))
  {
    var t := RequestRefresh(s, hndl, true, recent);
    StepKeepsInv(s, Request(hndl, true, recent));
    RunKeepsInv(t, run);
    StaysUrgent(t, run, hndl.hash);
    assert Live(Exec(t, run), hndl.hash);
  }

  lemma {:induction false} StaysUrgent(s: State, run: seq<Action>, h: Hash)
    requires ValidRun(s, run) && h in s.pending && s.pending[h] && !ClearsIn(s, run, h)
    ensures h in Exec(s, run).pending && Exec(s, run).pending[h]
    decreases |run|
  {
    if run != [] {
      StaysUrgent(Apply(s, run[0]), run[1..], h);
    }
  }

  // However the run goes on, once it is quiescent a query for h has completed in it.
  ghost predicate CompletionGuaranteed(s: State, h: Hash) {
    forall run :: ValidRun(s, run) && Quiescent(Exec(s, run)) ==> CompletesIn(s, run, h)
  }

  // The exact condition under which a waiting hash is sure to be refreshed: no worker has already
  // finished querying it without having deleted its entry. A request that arrives in that
  // window can be absorbed by a query that ended before the request was made.
  lemma CompletionGuaranteedExactly(s: State, h: Hash)
    requires Inv(s) && h in s.pending && |s.workers| > 0
    ensures CompletionGuaranteed(s, h) <==> !ReturnedFor(s, h)
  {
    if !ReturnedFor(s, h) {
      forall run | ValidRun(s, run) && Quiescent(Exec(s, run))
        ensures CompletesIn(s, run, h)
      {
        RunKeepsInv(s, run);
        QuiescentIsDrained(Exec(s, run));
        if !ClearsIn(s, run, h) {
          PendingUntilCleared(s, run, h);
        }
        ClearNeedsReturn(s, run, h);
      }
    } else {
      var w :| 0 <= w < |s.workers| && s.workers[w].Returned? && s.workers[w].hndl.hash == h;
      var run := DrainWithoutCompleting(Apply(s, Clear(w)), h);
      var lost := [Clear(w)] + run;
      assert lost[1..] == run;
      assert ValidRun(s, lost) && Quiescent(Exec(s, lost)) && !CompletesIn(s, lost, h);
    }
  }

  // The same, seen from the request: of all requests that pass the filter, exactly those made
  // while no worker sits between return and deletion are sure of a later completed query.
  lemma RequestGuaranteedExactly(s: State, hndl: Handle, urgent: bool, recent: bool)
    requires Inv(s) && |s.workers| > 0 && !Filtered(s, hndl, recent)
    ensures CompletionGuaranteed(RequestRefresh(s, hndl, urgent, recent), hndl.hash) <==> !ReturnedFor(s, hndl.hash)
  {
    var t := RequestRefresh(s, hndl, urgent, recent);
    StepKeepsInv(s, Request(hndl, urgent, recent));
    assert t.workers == s.workers;
    CompletionGuaranteedExactly(t, hndl.hash);
  }

  // ---------------------------------------------------------------------------------------------
  // Draining: every run is bounded by the work there is; from every state some run reaches
  // quiescence; and when h is not pending, one that completes no query for h does.

  // The steps a worker may still take, those of a query for a doomed hash ending in a panic.
  function Weight(w: Worker, doomed: set<Hash>): nat {
    match w
    case Waiting => 0
    case Idle => 1
    case Returned(_) => 2
    case Querying(x) => if x.hash in doomed then 8 else 3
    case Popped(_, _) => 4
    case Panicked(_) => 7
  }

  function TotalWeight(ws: seq<Worker>, doomed: set<Hash>): nat {
    if ws == [] then 0 else TotalWeight(ws[..|ws| - 1], doomed) + Weight(ws[|ws| - 1], doomed)
  }

  function Work(s: State, doomed: set<Hash>): nat {
    TotalWeight(s.workers, doomed) + 5 * |s.workUrgent| + 5 * |s.workSlow|
  }

  lemma UpdateWeight(ws: seq<Worker>, w: nat, x: Worker, doomed: set<Hash>)
    requires w < |ws|
    ensures TotalWeight(ws[w := x], doomed) == TotalWeight(ws, doomed) - Weight(ws[w], doomed) + Weight(x, doomed)
  {
    var n := |ws| - 1;
    if w < n {
      assert ws[w := x][..n] == ws[..n][w := x];
      UpdateWeight(ws[..n], w, x, doomed);
    } else {
      assert ws[w := x][..n] == ws[..n];
    }
  }

  // The steps a request, a panic or a pause may cost, itself among them.
  function Cost(a: Action): nat {
    match a
    case Request(_, _, _) => 6
    case QueryPanics(_) => 5
    case SetPause(_) => 1
    case _ => 0
  }

  function Costs(run: seq<Action>): nat
    decreases |run|
  {
    if run == [] then 0 else Cost(run[0]) + Costs(run[1..])
  }

  lemma StepWorks(s: State, a: Action)
    requires Enabled(s, a)
    ensures Work(Apply(s, a), {}) + 1 <= Work(s, {}) + Cost(a)
  {
    if !a.SetPause? && !a.Request? {
      UpdateWeight(s.workers, a.w, Apply(s, a).workers[a.w], {});
    }
  }

  // However workers, requests and panics interleave, no run is longer than the work there is at
  // its start and what its requests, panics and pauses add to it.
  lemma {:induction false} RunIsBounded(s: State, run: seq<Action>)
    requires ValidRun(s, run)
    ensures |run| + Work(Exec(s, run), {}) <= Work(s, {}) + Costs(run)
    decreases |run|
  {
    hide Work, Apply, Cost;
    if run != [] {
      StepWorks(s, run[0]);
      RunIsBounded(Apply(s, run[0]), run[1..]);
    }
  }

  // No worker can go on.
  ghost predicate AtRest(s: State) {
    forall a :: Enabled(s, a) ==> a.Request? || a.SetPause?
  }

  // Workers, if there are any, go on until the refresher is quiescent and all of them wait.
  lemma AtRestExactly(s: State)
    requires |s.workers| > 0
    ensures AtRest(s) <==> Quiescent(s) && forall w :: 0 <= w < |s.workers| ==> s.workers[w].Waiting?
  {
    if AtRest(s) {
      forall w | 0 <= w < |s.workers|
        ensures s.workers[w].Waiting? && s.workUrgent == [] && s.workSlow == []
      {
        assert !Enabled(s, Poll(w)) && !Enabled(s, PopUrgent(w)) && !Enabled(s, PopSlow(w)) && !Enabled(s, Check(w));
        assert !Enabled(s, QueryReturns(w)) && !Enabled(s, Clear(w)) && !Enabled(s, Requeue(w));
      }
      assert s.workers[0].Waiting?;
    }
  }

  // So every run that is not cut short while a worker can go on ends with nothing pending.
  lemma EveryRunDrains(workers: nat, run: seq<Action>)
    requires workers > 0 && ValidRun(Init(workers), run) && AtRest(Exec(Init(workers), run))
    ensures Quiescent(Exec(Init(workers), run)) && Exec(Init(workers), run).pending == map[]
  {
    hide AtRest, Quiescent;
    WorkersStay(Init(workers), run);
    AtRestExactly(Exec(Init(workers), run));
    NothingPendingAtQuiescence(workers, run);
  }

  lemma {:induction false} WorkersStay(s: State, run: seq<Action>)
    requires ValidRun(s, run)
    ensures |Exec(s, run).workers| == |s.workers|
    decreases |run|
  {
    if run != [] { WorkersStay(Apply(s, run[0]), run[1..]); }
  }

  lemma StepDrains(s: State, a: Action, h: Hash)
    requires Enabled(s, a) && !a.SetPause? && !a.Request? && h !in s.pending
    requires a.QueryReturns? ==> s.workers[a.w].hndl.hash != h
    requires a.QueryPanics? ==> s.workers[a.w].hndl.hash == h
    ensures h !in Apply(s, a).pending && |Apply(s, a).workers| == |s.workers|
    ensures Work(Apply(s, a), {h}) < Work(s, {h})
  {
    UpdateWeight(s.workers, a.w, Apply(s, a).workers[a.w], {h});
  }

  // The step a state that is not quiescent takes towards quiescence: a busy worker goes on, and
  // when none is busy worker 0 fetches the next handle.
  lemma DrainStep(s: State, h: Hash) returns (a: Action)
    requires |s.workers| > 0 && !Quiescent(s) && h !in s.pending
    ensures Enabled(s, a) && h !in Apply(s, a).pending && |Apply(s, a).workers| == |s.workers|
    ensures Work(Apply(s, a), {h}) < Work(s, {h})
    ensures !(a.QueryReturns? && s.workers[a.w].hndl.hash == h)
  {
    hide Apply, Work;
    if w :| 0 <= w < |s.workers| && !s.workers[w].Idle? && !s.workers[w].Waiting? {
      match s.workers[w] {
        case Popped(_, _) => a := Check(w);
        case Querying(x) => a := if x.hash == h then QueryPanics(w) else QueryReturns(w);
        case Returned(_) => a := Clear(w);
        case Panicked(_) => a := Requeue(w);
      }
    } else if s.workUrgent != [] {
      a := PopUrgent(0);
    } else if s.workers[0].Idle? {
      a := Poll(0);
    } else {
      a := PopSlow(0);
    }
    StepDrains(s, a, h);
  }

  lemma DrainWithoutCompleting(s: State, h: Hash) returns (run: seq<Action>)
    requires |s.workers| > 0 && h !in s.pending
    ensures ValidRun(s, run) && Quiescent(Exec(s, run)) && !CompletesIn(s, run, h)
    decreases Work(s, {h})
  {
    if Quiescent(s) {
      run := [];
    } else {
      var a := DrainStep(s, h);
      var rest := DrainWithoutCompleting(Apply(s, a), h);
      run := [a] + rest;
      assert run[1..] == rest;
    }
  }

  // ---------------------------------------------------------------------------------------------
  // The object and its atomic regions

  class LiquidityRefresher {
    var workUrgent: seq<Handle>
    var workSlow: seq<Handle>
    var pending: map<Hash, bool>
    var paused: bool
    var workers: seq<Worker>

    function View(): State
      reads this
    {
      State(workUrgent, workSlow, pending, paused, workers)
    }

    constructor (parallelWorkers: nat)
      ensures View() == Init(parallelWorkers) && Inv(View())
    {
      workUrgent, workSlow, pending, paused := [], [], map[], false;
      workers := seq(parallelWorkers, _ => Idle);
    }

    method SetPause(pause: bool)
      requires Inv(View())
      modifies this
      ensures View() == Apply(old(View()), Action.SetPause(pause)) && Inv(View())
      ensures paused == pause
    {
      StepKeepsInv(View(), Action.SetPause(pause));
      paused := pause;
    }

    method RequestRefresh(hndl: Handle, urgent: bool, recent: bool)
      requires Inv(View())
      modifies this
      ensures View() == Apply(old(View()), Request(hndl, urgent, recent))
      ensures Inv(View())
      ensures old(Filtered(View(), hndl, recent)) || hndl.hash in pending
      ensures old(paused) || (recent && hndl.skippable) ==> View() == old(View())
      ensures !old(paused) && !(recent && hndl.skippable) ==>
        var hash := hndl.hash;
        && hash in pending && (urgent ==> pending[hash]) && pending == old(pending)[hash := pending[hash]]
        && (if urgent && (hash !in old(pending) || !old(pending)[hash]) then
              workUrgent == old(workUrgent) + [hndl] && workSlow == old(workSlow)
            else if hash !in old(pending) then
              workUrgent == old(workUrgent) && workSlow == old(workSlow) + [hndl] && !pending[hash]
            else
              workUrgent == old(workUrgent) && workSlow == old(workSlow) && pending == old(pending))
      ensures workers == old(workers) && paused == old(paused)
    {
      StepKeepsInv(View(), Request(hndl, urgent, recent));
      if (recent && hndl.skippable) || paused {
        return;
      }
      var alreadyQueued := hndl.hash in pending;
      var queuedUrgent := alreadyQueued && pending[hndl.hash];
      if !alreadyQueued || (urgent && !queuedUrgent) {
        pending := pending[hndl.hash := urgent];
        if urgent {
          workUrgent := workUrgent + [hndl];
        } else {
          workSlow := workSlow + [hndl];
        }
      }
    }

    // One try of worker w to get a handle. It tries the urgent queue alone first; a worker that
    // found it empty takes whatever is there, `preferSlow` being the choice of the inner select
    // when both queues have something.
    method PopNext(w: nat, preferSlow: bool) returns (popped: bool)
      requires Inv(View())
      requires w < |workers| && (workers[w].Idle? || workers[w].Waiting?)
      modifies this
      ensures Inv(View()) && |workers| == old(|workers|)
      ensures popped <==> workers[w].Popped?
      ensures old(workers[w].Idle?) && old(workUrgent) == [] ==> View() == Apply(old(View()), Poll(w))
      ensures old(workers[w].Idle?) && old(workUrgent) != [] ==> View() == Apply(old(View()), PopUrgent(w))
      ensures old(workers[w].Waiting?) && popped ==>
        (old(Enabled(View(), PopUrgent(w))) && View() == Apply(old(View()), PopUrgent(w))) ||
        (old(Enabled(View(), PopSlow(w))) && View() == Apply(old(View()), PopSlow(w)))
      ensures old(workers[w].Waiting?) && !popped ==>
        View() == old(View()) && workUrgent == [] && workSlow == []
      ensures popped ==>
        if workers[w].fromSlow then
          old(workers[w].Waiting? && workSlow != []) && workUrgent == old(workUrgent)
          && old(workSlow) == [workers[w].hndl] + workSlow
        else old(workUrgent) == [workers[w].hndl] + workUrgent && workSlow == old(workSlow)
      ensures pending == old(pending)
    {
      popped := true;
      if workUrgent != [] && (workers[w].Idle? || workSlow == [] || !preferSlow) {
        StepKeepsInv(View(), PopUrgent(w));
        workUrgent, workers := workUrgent[1..], workers[w := Popped(workUrgent[0], false)];
      } else if workers[w].Waiting? && workSlow != [] {
        StepKeepsInv(View(), PopSlow(w));
        workSlow, workers := workSlow[1..], workers[w := Popped(workSlow[0], true)];
      } else {
        popped := false;
        if workers[w].Idle? {
          StepKeepsInv(View(), Poll(w));
          workers := workers[w := Waiting];
        }
      }
    }

    // The first locked region of the loop: look the handle up and skip it or go on to query.
    method CheckPending(w: nat) returns (skip: bool)
      requires Inv(View()) && w < |workers| && workers[w].Popped?
      modifies this
      ensures View() == Apply(old(View()), Check(w)) && Inv(View())
      ensures skip <==> old(
        workers[w].hndl.hash !in pending || (workers[w].fromSlow && pending[workers[w].hndl.hash]))
      ensures workers == old(workers)[w := if skip then Idle else Querying(old(workers[w].hndl))]
      ensures pending == old(pending) && workUrgent == old(workUrgent) && workSlow == old(workSlow)
    {
      StepKeepsInv(View(), Check(w));
      var hash := workers[w].hndl.hash;
      var queued := hash in pending;
      var urgent := queued && pending[hash];
      skip := (workers[w].fromSlow && urgent) || !queued;
      workers := workers[w := if skip then Idle else Querying(workers[w].hndl)];
    }

    // RefreshQuery itself: it comes back, or it panics and leaves the handle to the recovery.
    method RunQuery(w: nat, panics: bool)
      requires Inv(View()) && w < |workers| && workers[w].Querying?
      modifies this
      ensures View() == Apply(old(View()), if panics then QueryPanics(w) else QueryReturns(w))
      ensures Inv(View())
      ensures workers == old(workers)[w := if panics then Panicked(old(workers[w].hndl)) else Returned(old(workers[w].hndl))]
      ensures pending == old(pending) && workUrgent == old(workUrgent) && workSlow == old(workSlow)
    {
      StepKeepsInv(View(), if panics then QueryPanics(w) else QueryReturns(w));
      var hndl := workers[w].hndl;
      workers := workers[w := if panics then Panicked(hndl) else Returned(hndl)];
    }

    // The second locked region: the entry goes, whatever it says by now.
    method ClearPending(w: nat)
      requires Inv(View()) && w < |workers| && workers[w].Returned?
      modifies this
      ensures View() == Apply(old(View()), Clear(w)) && Inv(View())
      ensures pending == old(pending) - {old(workers[w].hndl.hash)} && workers == old(workers)[w := Idle]
      ensures workUrgent == old(workUrgent) && workSlow == old(workSlow)
    {
      StepKeepsInv(View(), Clear(w));
      pending := pending - {workers[w].hndl.hash};
      workers := workers[w := Idle];
    }

    // The deferred recovery: requeue the handle as urgent and start the worker again.
    method Recover(w: nat)
      requires Inv(View()) && w < |workers| && workers[w].Panicked?
      modifies this
      ensures View() == Apply(old(View()), Requeue(w)) && Inv(View())
      ensures workUrgent == old(workUrgent) + [old(workers[w].hndl)] && workers == old(workers)[w := Idle]
      ensures pending == old(pending) && workSlow == old(workSlow)
    {
      StepKeepsInv(View(), Requeue(w));
      workUrgent := workUrgent + [workers[w].hndl];
      workers := workers[w := Idle];
    }
  }
}
