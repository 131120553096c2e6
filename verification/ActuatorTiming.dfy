/**
 Timing of the actuator: how long a request can wait, and how close two task starts can be.
 */
module ActuatorTiming {
  import opened ActuatorSpec

  function Max(a: nat, b: nat): nat { if a < b then b else a }

  // ---- bounded latency ----

  /** The pool is on time: nothing due is still queued and no dequeued worker is still to start the task. */
  ghost predicate OnTime(s: State) {
    !PreRun(s) && forall id | id in s.core.pool.queue :: s.now < s.core.pool.queue[id]
  }

  /** The clock advances only while the pool is on time. */
  ghost predicate Punctual(c: Config, s: State, steps: seq<Step>)
    requires CanRun(c, s, steps)
    decreases |steps|
  {
    steps == [] || ((steps[0].Tick? ==> OnTime(s)) && Punctual(c, Apply(c, s, steps[0]), steps[1..]))
  }

  ghost predicate ForceDueBy(c: Config, s: State) {
    var q := s.core.pool.queue;
    s.core.forceId in q && forall r | r in s.pending :: q[s.core.forceId] <= Max(s.pending[r], s.released) + c.max
  }

  ghost predicate WaitsAtMost(s: State, bound: nat) {
    forall r | r in s.pending :: s.now <= Max(s.pending[r], s.released) + bound
  }

  ghost predicate LatencyInv(c: Config, s: State) {
    && Inv(s)
    && (s.core.forceId == s.core.delayId ==> s.core.forceId == INVALID_TASK_ID)
    && s.released <= s.now
    && (forall r | r in s.pending :: s.pending[r] <= s.now)
    && (s.core.forceId in s.core.pool.queue ==> s.core.pool.queue[s.core.forceId] <= s.now + c.max)
    && (s.holds == map[] && s.pending != map[] ==> PreRun(s) || ForceDueBy(c, s))
    && (s.holds == map[] ==> WaitsAtMost(s, c.max))
  }

  lemma StartTimerForce(c: Config, s: State, known: bool)
    requires LatencyInv(c, s) && c.HasForce() && !s.core.suspended
    ensures var t := s.(core := StartTimer(c, s.core, s.now, known));
            var q := t.core.pool.queue;
            && t.core.forceId != INVALID_TASK_ID && t.core.forceId != t.core.delayId
            && (t.core.forceId in q ==> q[t.core.forceId] <= s.now + c.max)
            && (t.core.forceId in q || PreRun(t))
            && (ForceDueBy(c, s) ==> ForceDueBy(c, t))
  {
  }

  lemma LatencyRequest(c: Config, s: State, req: nat, known: bool)
    requires LatencyInv(c, s) && c.HasForce() && Enabled(s, Execute(req, known))
    ensures LatencyInv(c, Apply(c, s, Execute(req, known)))
  {
    InvStep(c, s, Execute(req, known));
    if !s.core.suspended { StartTimerForce(c, s, known); }
  }

  lemma LatencyHoldEnd(c: Config, s: State, h: nat, known: bool)
    requires LatencyInv(c, s) && c.HasForce() && Enabled(s, HoldEnd(h, known))
    ensures LatencyInv(c, Apply(c, s, HoldEnd(h, known)))
  {
    InvStep(c, s, HoldEnd(h, known));
    if !s.core.suspended { StartTimerForce(c, s, known); }
  }

  lemma LatencyHold(c: Config, s: State, step: Step)
    requires LatencyInv(c, s) && c.HasForce() && Enabled(s, step)
    requires step.HoldSuspend? || step.HoldStop? || step.HoldActivate?
    ensures LatencyInv(c, Apply(c, s, step))
  {
    InvStep(c, s, step);
    assert step.h in Apply(c, s, step).holds;
  }

  lemma LatencyWorker(c: Config, s: State, step: Step)
    requires LatencyInv(c, s) && c.HasForce() && Enabled(s, step)
    requires step.Dequeue? || step.Stop? || step.Start? || step.Finish?
    ensures LatencyInv(c, Apply(c, s, step))
  {
    var t := Apply(c, s, step);
    InvStep(c, s, step);
    match step {
      case Dequeue(id) => assert t.workers[id] == Fired;
      case Stop(id) => assert t.workers[id] == Stopped;
      case Finish(_) =>
        if PreRun(s) {
          var j :| j in s.workers && s.workers[j] != Running;
          assert t.workers[j] != Running;
        }
      case Start(_) =>
    }
  }

  lemma LatencyStep(c: Config, s: State, step: Step)
    requires LatencyInv(c, s) && c.HasForce() && Enabled(s, step)
    requires step.Tick? ==> OnTime(s)
    ensures LatencyInv(c, Apply(c, s, step))
  {
    match step {
      case Execute(req, known) => LatencyRequest(c, s, req, known);
      case HoldEnd(h, known) => LatencyHoldEnd(c, s, h, known);
      case HoldSuspend(_) => LatencyHold(c, s, step);
      case HoldStop(_) => LatencyHold(c, s, step);
      case HoldActivate(_) => LatencyHold(c, s, step);
      case Tick => InvStep(c, s, step);
      case _ => LatencyWorker(c, s, step);
    }
  }

  lemma {:induction false} LatencyRun(c: Config, s: State, steps: seq<Step>)
    requires LatencyInv(c, s) && c.HasForce() && CanRun(c, s, steps) && Punctual(c, s, steps)
    ensures LatencyInv(c, Run(c, s, steps))
    decreases |steps|
  {
    if steps != [] {
      LatencyStep(c, s, steps[0]);
      LatencyRun(c, Apply(c, s, steps[0]), steps[1..]);
    }
  }

  /**
   With a force interval, an unserved request has never waited longer than that interval since it was made
   or since the last `Defer` ended, however often later requests pushed the delay timer back.
   */
  lemma BoundedLatency(c: Config, now: nat, steps: seq<Step>)
    requires c.HasForce() && CanRun(c, Init(now), steps) && Punctual(c, Init(now), steps)
    ensures var s := Run(c, Init(now), steps); s.holds == map[] ==> WaitsAtMost(s, c.max)
  {
    LatencyRun(c, Init(now), steps);
  }

  /** No request waits longer than `bound` in any punctual run from `now` that has no `Defer` open. */
  ghost predicate LatencyAtMost(c: Config, now: nat, bound: nat) {
    forall steps: seq<Step> :: CanRun(c, Init(now), steps) && Punctual(c, Init(now), steps) ==>
      var s := Run(c, Init(now), steps);
      s.holds == map[] ==> WaitsAtMost(s, bound)
  }

  /** Request 0 is unserved, and the only timer that can be queued was pushed back by a request made now. */
  ghost predicate Pestered(c: Config, s: State, count: nat) {
    && s.core.pool.Valid() && s.holds == map[] && s.workers == map[] && !s.core.suspended
    && s.core.forceId == INVALID_TASK_ID && s.released == 0
    && (if c.HasDelay() then s.core.pool.queue == map[s.core.delayId := s.now + c.min]
        else s.core.pool.queue == map[])
    && 0 in s.pending && forall r | r in s.pending :: r < count
  }

  /** Without a force interval a client that keeps asking keeps request 0 waiting for as long as it likes. */
  lemma {:induction false} Starve(c: Config, s: State, count: nat, k: nat) returns (steps: seq<Step>)
    requires !BoundsWaiting(c) && Pestered(c, s, count)
    ensures CanRun(c, s, steps) && Punctual(c, s, steps)
    ensures var t := Run(c, s, steps);
            t.holds == map[] && t.released == 0 && 0 in t.pending && t.pending[0] == s.pending[0] && t.now == s.now + k
    decreases k
  {
    if k == 0 {
      steps := [];
    } else {
      var t := Apply(c, s, Tick);
      var u := Apply(c, t, Execute(count, true));
      assert Pestered(c, u, count + 1);
      var rest := Starve(c, u, count + 1, k - 1);
      steps := [Tick, Execute(count, true)] + rest;
      assert steps[1..] == [Execute(count, true)] + rest && steps[1..][1..] == rest;
    }
  }

  lemma {:induction false} StarveFromInit(c: Config, now: nat, k: nat) returns (steps: seq<Step>)
    requires !BoundsWaiting(c)
    ensures CanRun(c, Init(now), steps) && Punctual(c, Init(now), steps)
    ensures var t := Run(c, Init(now), steps); t.holds == map[] && !WaitsAtMost(t, k)
  {
    var s := Apply(c, Init(now), Execute(0, true));
    var t := Apply(c, s, Execute(1, true));
    assert c.HasDelay() ==> t.core.pool.queue == map[t.core.delayId := t.now + c.min];
    var rest := Starve(c, t, 2, k + 1);
    steps := [Execute(0, true), Execute(1, true)] + rest;
    assert steps[1..] == [Execute(1, true)] + rest && steps[1..][1..] == rest;
  }

  // A minimum interval of zero bounds waiting too: pushing the delay timer back makes it due at once.

  ghost predicate DelayDueBy(c: Config, s: State) {
    var q := s.core.pool.queue;
    s.core.delayId in q && forall r | r in s.pending :: q[s.core.delayId] <= Max(s.pending[r], s.released) + c.first
  }

  ghost predicate DelayInv(c: Config, s: State) {
    && Inv(s)
    && s.core.forceId == INVALID_TASK_ID
    && s.released <= s.now
    && (forall r | r in s.pending :: s.pending[r] <= s.now)
    && (s.core.delayId in s.core.pool.queue ==> s.core.pool.queue[s.core.delayId] <= s.now + c.first)
    && (s.holds == map[] && s.pending != map[] ==> PreRun(s) || DelayDueBy(c, s))
    && (s.holds == map[] ==> WaitsAtMost(s, c.first))
  }

  lemma StartTimerDelay(c: Config, s: State, known: bool)
    requires DelayInv(c, s) && c.HasDelay() && c.max == INVALID_INTERVAL && c.min == 0 && !s.core.suspended
    ensures var t := s.(core := StartTimer(c, s.core, s.now, known));
            var q := t.core.pool.queue;
            && t.core.forceId == INVALID_TASK_ID
            && (t.core.delayId in q ==> q[t.core.delayId] <= s.now + c.first)
            && (t.core.delayId in q || PreRun(t))
            && (s.holds == map[] && DelayDueBy(c, s) ==> DelayDueBy(c, t))
  {
  }

  lemma DelayRequest(c: Config, s: State, req: nat, known: bool)
    requires DelayInv(c, s) && c.HasDelay() && c.max == INVALID_INTERVAL && c.min == 0
    requires Enabled(s, Execute(req, known))
    ensures DelayInv(c, Apply(c, s, Execute(req, known)))
  {
    InvStep(c, s, Execute(req, known));
    if !s.core.suspended { StartTimerDelay(c, s, known); }
  }

  lemma DelayHoldEnd(c: Config, s: State, h: nat, known: bool)
    requires DelayInv(c, s) && c.HasDelay() && c.max == INVALID_INTERVAL && c.min == 0 && Enabled(s, HoldEnd(h, known))
    ensures DelayInv(c, Apply(c, s, HoldEnd(h, known)))
  {
    InvStep(c, s, HoldEnd(h, known));
    if !s.core.suspended { StartTimerDelay(c, s, known); }
  }

  lemma DelayHold(c: Config, s: State, step: Step)
    requires DelayInv(c, s) && c.HasDelay() && c.max == INVALID_INTERVAL && c.min == 0 && Enabled(s, step)
    requires step.HoldSuspend? || step.HoldStop? || step.HoldActivate?
    ensures DelayInv(c, Apply(c, s, step))
  {
    InvStep(c, s, step);
    assert step.h in Apply(c, s, step).holds;
  }

  lemma DelayWorker(c: Config, s: State, step: Step)
    requires DelayInv(c, s) && c.HasDelay() && c.max == INVALID_INTERVAL && c.min == 0 && Enabled(s, step)
    requires step.Dequeue? || step.Stop? || step.Start? || step.Finish?
    ensures DelayInv(c, Apply(c, s, step))
  {
    var t := Apply(c, s, step);
    InvStep(c, s, step);
    match step {
      case Dequeue(id) => assert t.workers[id] == Fired;
      case Stop(id) => assert t.workers[id] == Stopped;
      case Finish(_) =>
        if PreRun(s) {
          var j :| j in s.workers && s.workers[j] != Running;
          assert t.workers[j] != Running;
        }
      case Start(_) =>
    }
  }

  lemma DelayStep(c: Config, s: State, step: Step)
    requires DelayInv(c, s) && c.HasDelay() && c.max == INVALID_INTERVAL && c.min == 0 && Enabled(s, step)
    requires step.Tick? ==> OnTime(s)
    ensures DelayInv(c, Apply(c, s, step))
  {
    match step {
      case Execute(req, known) => DelayRequest(c, s, req, known);
      case HoldEnd(h, known) => DelayHoldEnd(c, s, h, known);
      case HoldSuspend(_) => DelayHold(c, s, step);
      case HoldStop(_) => DelayHold(c, s, step);
      case HoldActivate(_) => DelayHold(c, s, step);
      case Tick => InvStep(c, s, step);
      case _ => DelayWorker(c, s, step);
    }
  }

  lemma {:induction false} DelayRun(c: Config, s: State, steps: seq<Step>)
    requires DelayInv(c, s) && c.HasDelay() && c.max == INVALID_INTERVAL && c.min == 0
    requires CanRun(c, s, steps) && Punctual(c, s, steps)
    ensures DelayInv(c, Run(c, s, steps))
    decreases |steps|
  {
    if steps != [] {
      DelayStep(c, s, steps[0]);
      DelayRun(c, Apply(c, s, steps[0]), steps[1..]);
    }
  }

  /** The configurations in which a request cannot be kept waiting. */
  predicate BoundsWaiting(c: Config) { c.HasForce() || (c.HasDelay() && c.min == 0) }

  /** Waiting is bounded exactly when the force interval is set or the delay timer has a zero minimum interval. */
  lemma LatencyBoundedIff(c: Config, now: nat)
    ensures (exists bound: nat :: LatencyAtMost(c, now, bound)) <==> BoundsWaiting(c)
  {
    if BoundsWaiting(c) {
      var bound := if c.HasForce() then c.max else c.first;
      forall steps: seq<Step> | CanRun(c, Init(now), steps) && Punctual(c, Init(now), steps)
        ensures var s := Run(c, Init(now), steps); s.holds == map[] ==> WaitsAtMost(s, bound)
      {
        if c.HasForce() { BoundedLatency(c, now, steps); } else { DelayRun(c, Init(now), steps); }
      }
      assert LatencyAtMost(c, now, bound);
    } else {
      forall bound: nat
        ensures !LatencyAtMost(c, now, bound)
      {
        var steps := StarveFromInit(c, now, bound);
      }
    }
  }

  // ---- minimum spacing ----

  /** A step of a client, or a whole firing: dequeue, `StopTimer`, task and time stamp at one instant. */
  datatype Move = Client(step: Step) | Fire(id: TaskId)

  predicate CanMove(s: State, m: Move) {
    match m
    case Client(step) =>
      && Enabled(s, step)
      && !step.Dequeue? && !step.Stop? && !step.Start? && !step.Finish?
      && (step.Tick? ==> s.now + 1 < CLOCK_RANGE)
    case Fire(id) => Enabled(s, Dequeue(id))
  }

  function FireAt(c: Config, s: State, id: TaskId): State {
    s.(core := StopTimer(c, s.core.(pool := s.core.pool.Remove(id), last := s.now)),
       workers := s.workers - {id}, pending := map[], starts := s.starts + [s.now])
  }

  function ApplyMove(c: Config, s: State, m: Move): State
    requires CanMove(s, m)
  {
    match m
    case Client(step) => Apply(c, s, step)
    case Fire(id) => FireAt(c, s, id)
  }

  /** A whole firing is the worker's four steps with nothing in between. */
  lemma FireIsFourSteps(c: Config, s: State, id: TaskId)
    requires CanMove(s, Fire(id))
    ensures var steps := [Dequeue(id), Stop(id), Start(id), Finish(id)];
            CanRun(c, s, steps) && Run(c, s, steps) == ApplyMove(c, s, Fire(id))
  {
    var s1 := Apply(c, s, Dequeue(id));
    var s2 := Apply(c, s1, Stop(id));
    var s3 := Apply(c, s2, Start(id));
    var s4 := Apply(c, s3, Finish(id));
    assert s4.workers == s.workers - {id};
    assert s4 == FireAt(c, s, id);
    RunStep(c, s3, Finish(id), []);
    RunStep(c, s2, Start(id), [Finish(id)]);
    RunStep(c, s1, Stop(id), [Start(id), Finish(id)]);
    RunStep(c, s, Dequeue(id), [Stop(id), Start(id), Finish(id)]);
    assert [Dequeue(id)] + [Stop(id), Start(id), Finish(id)] == [Dequeue(id), Stop(id), Start(id), Finish(id)];
    assert [Stop(id)] + [Start(id), Finish(id)] == [Stop(id), Start(id), Finish(id)];
    assert [Start(id)] + [Finish(id)] == [Start(id), Finish(id)];
    assert [Finish(id)] + [] == [Finish(id)];
  }

  lemma RunStep(c: Config, s: State, step: Step, rest: seq<Step>)
    requires Enabled(s, step) && CanRun(c, Apply(c, s, step), rest)
    ensures CanRun(c, s, [step] + rest) && Run(c, s, [step] + rest) == Run(c, Apply(c, s, step), rest)
  {
    assert ([step] + rest)[1..] == rest;
  }

  predicate CanMoves(c: Config, s: State, moves: seq<Move>)
    decreases |moves|
  {
    moves == [] || (CanMove(s, moves[0]) && CanMoves(c, ApplyMove(c, s, moves[0]), moves[1..]))
  }

  function Moves(c: Config, s: State, moves: seq<Move>): State
    requires CanMoves(c, s, moves)
    decreases |moves|
  {
    if moves == [] then s else Moves(c, ApplyMove(c, s, moves[0]), moves[1..])
  }

  ghost predicate Spaced(starts: seq<nat>, min: nat) {
    forall i, j | 0 <= i < j < |starts| :: starts[i] + min <= starts[j]
  }

  /** Whole firings are never closer than the minimum interval, in any run that begins at `now`. */
  ghost predicate AlwaysSpaced(c: Config, now: nat) {
    forall moves: seq<Move> :: CanMoves(c, Init(now), moves) ==> Spaced(Moves(c, Init(now), moves).starts, c.min)
  }

  /** Nothing runs, or the force interval is no shorter than the minimum and the clock cannot wrap below the minimum. */
  predicate SpacingCondition(c: Config, now: nat) {
    !c.hasPool || (c.max >= c.min && (c.min == INVALID_INTERVAL || now + c.first >= c.min))
  }

  ghost predicate SpacingInv(c: Config, begin: nat, s: State) {
    var floor := if s.starts == [] then c.min else s.starts[|s.starts| - 1] + c.min;
    && s.core.pool.Valid()
    && s.workers == map[]
    && begin <= s.now < CLOCK_RANGE
    && (forall id | id in s.core.pool.queue :: floor <= s.core.pool.queue[id])
    && s.core.pool.queue.Keys <= {s.core.forceId, s.core.delayId}
    && (c.min == INVALID_INTERVAL || !c.hasPool ==> s.core.pool.queue == map[])
    && (s.starts == [] ==> s.core.last == 0)
    && (s.starts != [] ==> s.core.last == s.starts[|s.starts| - 1] <= s.now && c.min <= s.now)
    && Spaced(s.starts, c.min)
  }

  lemma SpacingForce(c: Config, begin: nat, s: State)
    requires c.hasPool && SpacingCondition(c, begin) && SpacingInv(c, begin, s)
    ensures SpacingInv(c, begin, s.(core := ArmForce(c, s.core, s.now)))
  {
  }

  lemma SpacingDelay(c: Config, begin: nat, s: State, known: bool)
    requires c.hasPool && SpacingCondition(c, begin) && SpacingInv(c, begin, s)
    ensures SpacingInv(c, begin, s.(core := ArmDelay(c, s.core, s.now, known)))
  {
  }

  lemma SpacingStart(c: Config, begin: nat, s: State, known: bool)
    requires SpacingCondition(c, begin) && SpacingInv(c, begin, s)
    ensures SpacingInv(c, begin, s.(core := StartTimer(c, s.core, s.now, known)))
  {
    if c.hasPool && !s.core.suspended {
      SpacingForce(c, begin, s);
      SpacingDelay(c, begin, s.(core := ArmForce(c, s.core, s.now)), known);
    }
  }

  lemma SpacingFire(c: Config, begin: nat, s: State, id: TaskId)
    requires SpacingInv(c, begin, s) && CanMove(s, Fire(id))
    ensures SpacingInv(c, begin, ApplyMove(c, s, Fire(id)))
  {
    var t := ApplyMove(c, s, Fire(id));
    assert t.core.pool.queue == map[];
  }

  lemma SpacingRequest(c: Config, begin: nat, s: State, step: Step)
    requires SpacingCondition(c, begin) && SpacingInv(c, begin, s) && CanMove(s, Client(step))
    requires step.Execute? || step.HoldEnd?
    ensures SpacingInv(c, begin, Apply(c, s, step))
  {
    SpacingStart(c, begin, s, step.known);
  }

  lemma SpacingHold(c: Config, begin: nat, s: State, step: Step)
    requires SpacingInv(c, begin, s) && CanMove(s, Client(step)) && !step.Execute? && !step.HoldEnd?
    ensures SpacingInv(c, begin, Apply(c, s, step))
  {
  }

  lemma SpacingMove(c: Config, begin: nat, s: State, m: Move)
    requires SpacingCondition(c, begin) && SpacingInv(c, begin, s) && CanMove(s, m)
    ensures SpacingInv(c, begin, ApplyMove(c, s, m))
  {
    match m {
      case Client(step) =>
        if step.Execute? || step.HoldEnd? {
          SpacingRequest(c, begin, s, step);
        } else {
          SpacingHold(c, begin, s, step);
        }
      case Fire(id) => SpacingFire(c, begin, s, id);
    }
  }

  lemma {:induction false} SpacingMoves(c: Config, begin: nat, s: State, moves: seq<Move>)
    requires SpacingCondition(c, begin) && SpacingInv(c, begin, s) && CanMoves(c, s, moves)
    ensures SpacingInv(c, begin, Moves(c, s, moves))
    decreases |moves|
  {
    if moves != [] {
      SpacingMove(c, begin, s, moves[0]);
      SpacingMoves(c, begin, ApplyMove(c, s, moves[0]), moves[1..]);
    }
  }

  /** Waiting `k` clock ticks. */
  lemma {:induction false} Wait(c: Config, s: State, k: nat, rest: seq<Move>) returns (moves: seq<Move>)
    requires s.now + k < CLOCK_RANGE && CanMoves(c, s.(now := s.now + k), rest)
    ensures CanMoves(c, s, moves) && Moves(c, s, moves) == Moves(c, s.(now := s.now + k), rest)
    decreases k
  {
    if k == 0 {
      assert s.(now := s.now + k) == s;
      moves := rest;
    } else {
      var t := ApplyMove(c, s, Client(Tick));
      assert t.(now := t.now + (k - 1)) == s.(now := s.now + k);
      var later := Wait(c, t, k - 1, rest);
      moves := [Client(Tick)] + later;
      assert moves[1..] == later;
    }
  }

  /** The state after asking, waiting `k` and letting task `id` fire. */
  function AfterRound(c: Config, s: State, k: nat, id: TaskId): State
    requires 0 !in s.pending
  {
    var u := Apply(c, s, Execute(0, true));
    FireAt(c, u.(now := u.now + k), id)
  }

  predicate RoundDue(c: Config, s: State, k: nat, id: TaskId) {
    var q := StartTimer(c, s.core, s.now, true).pool.queue;
    id in q && q[id] <= s.now + k
  }

  lemma AfterRoundStarts(c: Config, s: State, k: nat, id: TaskId)
    requires 0 !in s.pending
    ensures var t := AfterRound(c, s, k, id);
            t.now == s.now + k && t.pending == map[] && t.starts == s.starts + [s.now + k]
  {
  }

  lemma {:induction false} AskAndFire(c: Config, s: State, k: nat, id: TaskId, rest: seq<Move>)
    returns (moves: seq<Move>)
    requires 0 !in s.pending && s.now + k < CLOCK_RANGE && RoundDue(c, s, k, id)
    requires CanMoves(c, AfterRound(c, s, k, id), rest)
    ensures CanMoves(c, s, moves) && Moves(c, s, moves) == Moves(c, AfterRound(c, s, k, id), rest)
  {
    var u := Apply(c, s, Execute(0, true));
    var fire := [Fire(id)] + rest;
    assert fire[1..] == rest;
    var waiting := Wait(c, u, k, fire);
    moves := [Client(Execute(0, true))] + waiting;
    assert moves[1..] == waiting;
  }

  lemma {:induction false} TwoRoundsRun(c: Config, now: nat, k: nat, first: TaskId, second: TaskId)
    returns (moves: seq<Move>)
    requires now + 2 * k < CLOCK_RANGE
    requires RoundDue(c, Init(now), k, first) && RoundDue(c, AfterRound(c, Init(now), k, first), k, second)
    ensures CanMoves(c, Init(now), moves) && Moves(c, Init(now), moves).starts == [now + k, now + k + k]
  {
    var t := AfterRound(c, Init(now), k, first);
    AfterRoundStarts(c, Init(now), k, first);
    AfterRoundStarts(c, t, k, second);
    var rest := AskAndFire(c, t, k, second, []);
    moves := AskAndFire(c, Init(now), k, first, rest);
  }

  /** Two rounds of a timer that takes `k` give two starts `k` apart. */
  lemma {:induction false} TwoRounds(c: Config, now: nat, k: nat, first: TaskId, second: TaskId)
    requires now + 2 * k < CLOCK_RANGE && k < c.min
    requires RoundDue(c, Init(now), k, first) && RoundDue(c, AfterRound(c, Init(now), k, first), k, second)
    ensures !AlwaysSpaced(c, now)
  {
    var moves := TwoRoundsRun(c, now, k, first, second);
    var r := Moves(c, Init(now), moves).starts;
    assert r[0] + c.min > r[1];
  }

  /**
   Firings that are one step are at least the minimum interval apart in every run exactly when the force
   interval is no shorter and the clock cannot wrap below the minimum.
   */
  lemma MinimumSpacingIff(c: Config, now: nat)
    requires now + 2 * INVALID_INTERVAL < CLOCK_RANGE
    ensures AlwaysSpaced(c, now) <==> SpacingCondition(c, now)
  {
    if SpacingCondition(c, now) {
      forall moves: seq<Move> | CanMoves(c, Init(now), moves)
        ensures Spaced(Moves(c, Init(now), moves).starts, c.min)
      {
        SpacingMoves(c, now, Init(now), moves);
      }
    } else if c.max < c.min {
      TwoRounds(c, now, c.max, 1, if c.HasDelay() then 3 else 2);
    } else {
      var first := if c.HasForce() then 2 else 1;
      TwoRounds(c, now, c.first, first, if c.HasForce() then 4 else 2);
    }
  }
}
