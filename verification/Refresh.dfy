/** The single-flight, spaced list refresh of hermes_bridge.py
    (`request_remote_refresh`, `_remote_refresh_worker`). The event loop runs one
    task at a time, so what happens between two awaits is one step; time passes
    only between steps. */
module Refresh {
  import opened Common

  const SPACING: real := 1.0

  /** A worker task: created and not yet scheduled, awaiting its list request,
      asleep for the rest of its window, or over. */
  datatype Worker = Created | Refreshing(started: real) | Sleeping(until: real) | Finished

  /** `starts` logs when each refresh began, `requests` counts invalidations. */
  datatype Bridge = Bridge(pending: bool, task: Option<nat>, workers: seq<Worker>, now: real,
                           starts: seq<real>, requests: nat)

  const IDLE := Bridge(false, None, [], 0.0, [], 0)

  datatype Action =
    | Invalidate              // request_remote_refresh
    | Schedule(id: nat)       // a created worker runs for the first time
    | Answer(id: nat)         // its list request returns, or raises an RPC fault
    | Wake(id: nat)           // its sleep is over
    | Tick(passed: real)

  predicate Live(w: Worker) {
    !w.Finished?
  }

  function Request(b: Bridge): Bridge {
    var dirty := b.(pending := true, requests := b.requests + 1);
    if b.task.None? || b.task.value >= |b.workers| || b.workers[b.task.value].Finished? then
      dirty.(workers := b.workers + [Created], task := Some(|b.workers|))
    else dirty
  }

  /** The worker's loop test: start a refresh, or leave and clear the field. */
  function LoopHead(b: Bridge, id: nat): Bridge
    requires id < |b.workers|
  {
    if b.pending then
      b.(pending := false, workers := b.workers[id := Refreshing(b.now)], starts := b.starts + [b.now])
    else
      b.(workers := b.workers[id := Finished], task := if b.task == Some(id) then None else b.task)
  }

  function Max(a: real, b: real): real { if a < b then b else a }

  /** One step; an action that is not enabled changes nothing. */
  function Step(b: Bridge, a: Action): Bridge {
    match a
    case Invalidate => Request(b)
    case Schedule(id) => if id < |b.workers| && b.workers[id].Created? then LoopHead(b, id) else b
    case Answer(id) =>
      if id < |b.workers| && b.workers[id].Refreshing? then
        var rest := Max(0.0, SPACING - (b.now - b.workers[id].started));
        b.(workers := b.workers[id := Sleeping(b.now + rest)])
      else b
    case Wake(id) =>
      if id < |b.workers| && b.workers[id].Sleeping? && b.workers[id].until <= b.now then LoopHead(b, id) else b
    case Tick(passed) => if passed >= 0.0 then b.(now := b.now + passed) else b
  }

  function Run(b: Bridge, actions: seq<Action>): Bridge {
    if actions == [] then b else Step(Run(b, actions[..|actions| - 1]), actions[|actions| - 1])
  }

  // ---- the invariant -------------------------------------------------------------------

  /** Since the last refresh began, one spacing has passed. */
  predicate Spaced(b: Bridge) {
    b.starts == [] || b.starts[|b.starts| - 1] + SPACING <= b.now
  }

  /** Where the one worker is in its window. */
  predicate InWindow(b: Bridge, w: Worker) {
    match w
    case Created => b.pending && Spaced(b)
    case Refreshing(started) => b.starts != [] && started == b.starts[|b.starts| - 1]
    case Sleeping(until) => b.starts != [] && until >= b.starts[|b.starts| - 1] + SPACING
    case Finished => false
  }

  ghost predicate Invariant(b: Bridge) {
    // at most one worker lives, and the field names it
    && (forall i :: 0 <= i < |b.workers| && Live(b.workers[i]) ==> b.task == Some(i))
    && (b.task.Some? ==> b.task.value < |b.workers| && InWindow(b, b.workers[b.task.value]))
    // an invalidation always has a worker
    && (b.pending ==> b.task.Some?)
    // refreshes are spaced, even across workers
    && (b.task.None? ==> Spaced(b))
    && (b.starts != [] ==> b.starts[|b.starts| - 1] <= b.now)
    && (forall i :: 0 < i < |b.starts| ==> b.starts[i - 1] + SPACING <= b.starts[i])
    // and no refresh runs without an invalidation of its own
    && |b.starts| + (if b.pending then 1 else 0) <= b.requests
  }

  lemma {:induction false} StepKeeps(b: Bridge, a: Action)
    requires Invariant(b)
    ensures Invariant(Step(b, a))
  {
  }

  /** In every run: at most one worker, every pending invalidation has one, and
      any two refreshes start at least one spacing apart. */
  lemma {:induction false} RunKeeps(actions: seq<Action>)
    ensures Invariant(Run(IDLE, actions))
    decreases |actions|
  {
    hide Step;
    if actions != [] {
      RunKeeps(actions[..|actions| - 1]);
      StepKeeps(Run(IDLE, actions[..|actions| - 1]), actions[|actions| - 1]);
    }
  }

  lemma {:induction false} StartsApart(actions: seq<Action>, i: nat, j: nat)
    requires i < j < |Run(IDLE, actions).starts|
    ensures Run(IDLE, actions).starts[i] + SPACING <= Run(IDLE, actions).starts[j]
    decreases j
  {
    hide Run;
    RunKeeps(actions);
    if i < j - 1 {
      StartsApart(actions, i, j - 1);
    }
  }

  /** A worker sleeps out exactly the window of its refresh, and not at all once
      that is over. */
  lemma {:induction false} SleepsOutWindow(b: Bridge, id: nat)
    requires id < |b.workers| && b.workers[id].Refreshing?
    ensures var c := Step(b, Answer(id));
            && c.workers[id].Sleeping? && (c.workers[id].until == b.now || c.workers[id].until == b.workers[id].started + SPACING)
            && c.workers[id].until >= b.now && c.workers[id].until >= b.workers[id].started + SPACING
            && c == b.(workers := b.workers[id := c.workers[id]])
  {
  }

  // ---- no lost wake-up --------------------------------------------------------------------

  lemma {:induction false} PendingUntilStart(b: Bridge, a: Action)
    ensures b.starts <= Step(b, a).starts
    ensures b.pending ==> Step(b, a).pending || |Step(b, a).starts| > |b.starts|
  {
  }

  /** After an invalidation, either a refresh has started since, or it is still
      pending and a live worker is there to serve it. */
  lemma {:induction false} NoLostWakeup(before: seq<Action>, later: seq<Action>)
    ensures var b := Run(IDLE, before + [Invalidate]);
            var c := Run(IDLE, before + [Invalidate] + later);
            || |c.starts| > |b.starts|
            || (c.starts == b.starts && c.pending && c.task.Some? && c.task.value < |c.workers| && Live(c.workers[c.task.value]))
    decreases |later|
  {
    hide Step;
    var head := before + [Invalidate];
    if later == [] {
      assert head + later == head && head[..|head| - 1] == before;
      RunKeeps(head);
      InvalidatePends(Run(IDLE, before));
    } else {
      var n := |later| - 1;
      NoLostWakeup(before, later[..n]);
      var all := head + later;
      assert all[..|all| - 1] == head + later[..n] && all[|all| - 1] == later[n];
      PendingUntilStart(Run(IDLE, head + later[..n]), later[n]);
      RunKeeps(all);
    }
  }

  lemma {:induction false} InvalidatePends(b: Bridge)
    ensures Step(b, Invalidate).pending
  {
  }

  /** How many turns the worker needs before it looks for invalidations again. */
  function Rank(b: Bridge): nat
    requires b.task.Some? && b.task.value < |b.workers|
  {
    match b.workers[b.task.value]
    case Created => 1
    case Refreshing(_) => 2
    case Sleeping(_) => 1
    case Finished => 0
  }

  /** The action is the worker's next turn: it is scheduled, its list request
      returns, or its sleep is over. */
  predicate Turn(b: Bridge, a: Action) {
    match a
    case Schedule(id) => b.task == Some(id) && id < |b.workers| && b.workers[id].Created?
    case Answer(id) => b.task == Some(id) && id < |b.workers| && b.workers[id].Refreshing?
    case Wake(id) => b.task == Some(id) && id < |b.workers| && b.workers[id].Sleeping? && b.workers[id].until <= b.now
    case _ => false
  }

  /** How many turns the worker gets in a run. */
  function Turns(b: Bridge, actions: seq<Action>): nat {
    if actions == [] then 0
    else
      var init := actions[..|actions| - 1];
      Turns(b, init) + if Turn(Run(b, init), actions[|actions| - 1]) then 1 else 0
  }

  /** Still waiting for the same worker, which has `rank` turns to go. */
  ghost predicate Waiting(b: Bridge, c: Bridge, rank: int) {
    && c.starts == b.starts && c.pending && c.task == b.task && c.task.Some? && c.task.value < |c.workers|
    && Rank(c) == rank && rank > 0
  }

  lemma {:induction false} WaitingStep(b: Bridge, c: Bridge, a: Action, rank: int)
    requires Invariant(c) && Waiting(b, c, rank)
    ensures |Step(c, a).starts| > |b.starts| || Waiting(b, Step(c, a), rank - if Turn(c, a) then 1 else 0)
  {
  }

  /** A pending invalidation is served in every run that gives its worker the
      turns it needs, two if a refresh is under way and one otherwise, whatever
      else happens in between. */
  lemma {:induction false} WorkerServes(b: Bridge, actions: seq<Action>)
    requires Invariant(b) && b.pending
    ensures Invariant(Run(b, actions))
    ensures |Run(b, actions).starts| > |b.starts| || Waiting(b, Run(b, actions), Rank(b) - Turns(b, actions))
    ensures Turns(b, actions) >= Rank(b) ==> |Run(b, actions).starts| > |b.starts|
    decreases |actions|
  {
    var rank := Rank(b);
    if actions != [] {
      hide Step, Invariant, Waiting, Turn, Rank;
      var n := |actions| - 1;
      WorkerServes(b, actions[..n]);
      var c, turns := Run(b, actions[..n]), Turns(b, actions[..n]);
      OneMore(b, actions);
      hide Run, Turns;
      StepKeeps(c, actions[n]);
      PendingUntilStart(c, actions[n]);
      if |c.starts| <= |b.starts| {
        WaitingStep(b, c, actions[n], rank - turns);
      }
      WaitingRank(b, Run(b, actions), rank - Turns(b, actions));
    }
  }

  lemma OneMore(b: Bridge, actions: seq<Action>)
    requires actions != []
    ensures var n := |actions| - 1;
            var c := Run(b, actions[..n]);
            && Run(b, actions) == Step(c, actions[n])
            && Turns(b, actions) == Turns(b, actions[..n]) + if Turn(c, actions[n]) then 1 else 0
  {
  }

  lemma WaitingRank(b: Bridge, c: Bridge, rank: int)
    ensures Waiting(b, c, rank) ==> rank > 0
  {
  }

  // ---- other exceptions ----------------------------------------------------------------------

  /** A fault that is not an RPC fault leaves the loop through `finally`. */
  function Abort(b: Bridge, id: nat): Bridge
    requires id < |b.workers|
  {
    b.(workers := b.workers[id := Finished], task := if b.task == Some(id) then None else b.task)
  }

  /** Exactly when that loses something: an invalidation pending at that moment
      has no worker left, or the next worker may start inside the window. */
  lemma {:induction false} AbortKeepsExactly(b: Bridge, id: nat)
    requires Invariant(b) && id < |b.workers| && b.workers[id].Refreshing?
    ensures Invariant(Abort(b, id)) <==> !b.pending && Spaced(b)
  {
  }

  /** A run that strands an invalidation: it comes while the list is requested,
      and the request raises. */
  lemma {:induction false} AbortStrands()
    ensures var b := Run(IDLE, [Invalidate, Schedule(0), Invalidate]);
            && |b.workers| == 1 && b.workers[0].Refreshing?
            && var c := Abort(b, 0);
               c.pending && c.task.None? && c.workers == [Finished] && !Invariant(c)
  {
    ThreeSteps(IDLE, [Invalidate, Schedule(0), Invalidate]);
  }

  /** A run that starts two refreshes at once: the request raises, and the next
      invalidation finds no worker that waits for the window. */
  lemma {:induction false} AbortCrowds()
    ensures var b := Run(IDLE, [Invalidate, Schedule(0)]);
            && |b.workers| == 1 && b.workers[0].Refreshing?
            && Run(Abort(b, 0), [Invalidate, Schedule(1)]).starts == [0.0, 0.0]
  {
    TwoSteps(IDLE, [Invalidate, Schedule(0)]);
    TwoSteps(Abort(Run(IDLE, [Invalidate, Schedule(0)]), 0), [Invalidate, Schedule(1)]);
  }

  lemma {:induction false} TwoSteps(b: Bridge, actions: seq<Action>)
    requires |actions| == 2
    ensures Run(b, actions) == Step(Step(b, actions[0]), actions[1])
  {
    hide Step;
    var one := actions[..1];
    assert one[..0] == [] && one[0] == actions[0];
    assert Run(b, one[..0]) == b;
    assert Run(b, one) == Step(b, actions[0]);
  }

  lemma {:induction false} ThreeSteps(b: Bridge, actions: seq<Action>)
    requires |actions| == 3
    ensures Run(b, actions) == Step(Step(Step(b, actions[0]), actions[1]), actions[2])
  {
    hide Step;
    TwoSteps(b, actions[..2]);
  }

  // ---- the object ------------------------------------------------------------------------------

  class RefreshGate {
    var pending: bool
    var task: Option<nat>
    var workers: seq<Worker>
    var now: real
    ghost var starts: seq<real>
    ghost var requests: nat

    ghost function State(): Bridge
      reads this
    {
      Bridge(pending, task, workers, now, starts, requests)
    }

    constructor ()
      ensures State() == IDLE && Invariant(State())
    {
      pending, task, workers, now, starts, requests := false, None, [], 0.0, [], 0;
    }

    method RequestRemoteRefresh()
      requires Invariant(State())
      modifies this
      ensures State() == old(Step(State(), Invalidate)) && Invariant(State())
    {
      StepKeeps(State(), Invalidate);
      pending, requests := true, requests + 1;
      if task.None? || task.value >= |workers| || workers[task.value].Finished? {
        workers, task := workers + [Created], Some(|workers|);
      }
    }

    /** The list request returns, or raises an RPC fault: the worker sleeps for
        the rest of its window. */
    method ListAnswered(id: nat)
      requires Invariant(State()) && id < |workers| && workers[id].Refreshing?
      modifies this
      ensures State() == old(Step(State(), Answer(id))) && Invariant(State())
      ensures workers[id].Sleeping?
      ensures workers[id].until == if now < old(workers[id]).started + SPACING then old(workers[id]).started + SPACING else now
    {
      StepKeeps(State(), Answer(id));
      workers := workers[id := Sleeping(now + Max(0.0, SPACING - (now - workers[id].started)))];
    }

    /** The worker's turn at its loop test, first run or woken up. */
    method WorkerTurn(id: nat)
      requires Invariant(State()) && id < |workers|
      requires workers[id].Created? || (workers[id].Sleeping? && workers[id].until <= now)
      modifies this
      ensures State() == old(LoopHead(State(), id)) && Invariant(State())
      ensures old(pending) ==> starts == old(starts) + [now]
    {
      StepKeeps(State(), if workers[id].Created? then Schedule(id) else Wake(id));
      if pending {
        pending := false;
        workers := workers[id := Refreshing(now)];
        starts := starts + [now];
      } else {
        workers := workers[id := Finished];
        if task == Some(id) {
          task := None;
        }
      }
    }
  }
}
