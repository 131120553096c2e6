/**
 How close two task starts can be when a firing is the worker's real steps, which requests, other workers and `Defer`
 objects may interrupt.
 */
module ActuatorOverlap {
  import opened ActuatorSpec
  import opened ActuatorTiming

  /** Task starts keep the minimum interval in every run. */
  ghost predicate StepsSpaced(c: Config, now: nat) {
    forall steps: seq<Step> :: CanRun(c, Init(now), steps) ==> Spaced(Run(c, Init(now), steps).starts, c.min)
  }

  /** Task starts keep the minimum interval in every run whose pool is on time. */
  ghost predicate PunctualSpaced(c: Config, now: nat) {
    forall steps: seq<Step> :: CanRun(c, Init(now), steps) && Punctual(c, Init(now), steps) ==>
      Spaced(Run(c, Init(now), steps).starts, c.min)
  }

  /** Only one of the two timers is used, and its interval is no shorter than the minimum. */
  predicate OneSlowTimer(c: Config) {
    || (c.HasForce() && !c.HasDelay() && c.max >= c.min)
    || (c.HasDelay() && !c.HasForce() && c.first >= c.min)
  }

  // ---- putting runs together ----

  lemma {:induction false} RunConcat(c: Config, s: State, a: seq<Step>, b: seq<Step>)
    requires CanRun(c, s, a) && CanRun(c, Run(c, s, a), b)
    ensures CanRun(c, s, a + b) && Run(c, s, a + b) == Run(c, Run(c, s, a), b)
    ensures Punctual(c, s, a) && Punctual(c, Run(c, s, a), b) ==> Punctual(c, s, a + b)
    decreases |a|
  {
    if a == [] {
      assert a + b == b;
    } else {
      RunConcat(c, Apply(c, s, a[0]), a[1..], b);
      assert (a + b)[1..] == a[1..] + b;
    }
  }

  /** One step after a run; a step of the clock has to find the pool on time. */
  lemma {:induction false} RunThen(c: Config, s: State, a: seq<Step>, step: Step) returns (steps: seq<Step>)
    requires CanRun(c, s, a) && Enabled(Run(c, s, a), step)
    ensures CanRun(c, s, steps) && Run(c, s, steps) == Apply(c, Run(c, s, a), step)
    ensures Punctual(c, s, a) && (step.Tick? ==> OnTime(Run(c, s, a))) ==> Punctual(c, s, steps)
  {
    var t := Run(c, s, a);
    steps := a + [step];
    assert [step][1..] == [];
    assert CanRun(c, Apply(c, t, step), []) && Punctual(c, Apply(c, t, step), []);
    RunConcat(c, s, a, [step]);
  }

  /** Nothing is due before `k` ticks have passed, and no worker is about to start the task. */
  ghost predicate QuietFor(s: State, k: nat) {
    !PreRun(s) && forall id | id in s.core.pool.queue :: s.now + k <= s.core.pool.queue[id]
  }

  lemma {:induction false} Ticks(c: Config, s: State, a: seq<Step>, k: nat) returns (steps: seq<Step>)
    requires CanRun(c, s, a)
    ensures CanRun(c, s, steps)
    ensures var t := Run(c, s, a);
            && Run(c, s, steps) == t.(now := t.now + k)
            && (Punctual(c, s, a) && QuietFor(t, k) ==> Punctual(c, s, steps))
    decreases k
  {
    if k == 0 {
      steps := a;
    } else {
      var t := Run(c, s, a);
      var before := RunThen(c, s, a, Tick);
      var u := Run(c, s, before);
      steps := Ticks(c, s, before, k - 1);
      assert u.(now := u.now + (k - 1)) == t.(now := t.now + k);
      if QuietFor(t, k) {
        assert OnTime(t);
        assert QuietFor(u, k - 1);
      }
    }
  }

  // ---- every run: two workers past their `StopTimer` ----

  /** Both timers idle, nothing queued, no time stamp yet. */
  predicate Idle(s: State) {
    && s.core == Core(INVALID_TASK_ID, INVALID_TASK_ID, false, 0, Pool(map[], s.core.pool.nextId))
    && s.core.pool.nextId >= 1
  }

  /** How long the timer armed first runs: the force timer if there is one. */
  function Interval(c: Config): nat { if c.HasForce() then c.max else c.first }

  /** A request of an idle actuator arms the next task id. */
  lemma ArmIdle(c: Config, t: State, req: nat)
    requires c.Arms() && Idle(t) && Enabled(t, Execute(req, true))
    ensures var u := Apply(c, t, Execute(req, true)).core;
            && t.core.pool.nextId in u.pool.queue && u.pool.queue[t.core.pool.nextId] == t.now + Interval(c)
            && u.pool.queue.Keys <= {u.forceId, u.delayId} && u.pool.nextId > t.core.pool.nextId
            && u.last == 0 && !u.suspended
  {
  }

  /** A worker's `StopTimer` leaves the actuator idle. */
  lemma StopIdles(c: Config, t: State, id: TaskId)
    requires c.hasPool && Enabled(t, Stop(id)) && t.core.pool.queue.Keys <= {t.core.forceId, t.core.delayId}
    requires t.core.last == 0 && !t.core.suspended && t.core.pool.nextId >= 1
    ensures var u := Apply(c, t, Stop(id)); Idle(u) && u.core.pool.nextId == t.core.pool.nextId
  {
    assert Apply(c, t, Stop(id)).core.pool.queue == map[];
  }

  /** Ask, let the timer come due, and take its worker past `StopTimer`. */
  lemma {:induction false} StopOne(c: Config, s: State, a: seq<Step>, req: nat) returns (steps: seq<Step>)
    requires c.Arms() && CanRun(c, s, a) && Idle(Run(c, s, a)) && req !in Run(c, s, a).pending
    ensures CanRun(c, s, steps)
    ensures var t, u := Run(c, s, a), Run(c, s, steps);
            && Idle(u) && u.core.pool.nextId > t.core.pool.nextId && u.starts == t.starts
            && u.workers == t.workers[t.core.pool.nextId := Stopped]
            && u.pending.Keys == t.pending.Keys + {req}
  {
    var t := Run(c, s, a);
    var id := t.core.pool.nextId;
    ArmIdle(c, t, req);
    steps := RunThen(c, s, a, Execute(req, true));
    steps := Ticks(c, s, steps, Interval(c));
    steps := RunThen(c, s, steps, Dequeue(id));
    StopIdles(c, Run(c, s, steps), id);
    steps := RunThen(c, s, steps, Stop(id));
  }

  lemma {:induction false} TwoWorkers(c: Config, now: nat) returns (steps: seq<Step>)
    requires c.Arms()
    ensures CanRun(c, Init(now), steps)
    ensures var r := Run(c, Init(now), steps).starts; |r| == 2 && r[0] == r[1]
  {
    var s := Init(now);
    steps := StopOne(c, s, [], 0);
    var first := s.core.pool.nextId;
    var second := Run(c, s, steps).core.pool.nextId;
    steps := StopOne(c, s, steps, 1);
    steps := RunThen(c, s, steps, Start(first));
    steps := RunThen(c, s, steps, Start(second));
  }

  // ---- every run: nothing to keep apart ----

  ghost predicate Ordered(s: State) {
    Spaced(s.starts, 0) && forall i | 0 <= i < |s.starts| :: s.starts[i] <= s.now
  }

  predicate NothingRuns(s: State) {
    && s.core.pool.queue == map[] && s.workers == map[] && s.starts == []
    && s.core.forceId == s.core.delayId == INVALID_TASK_ID
  }

  lemma {:induction false} OrderedRun(c: Config, s: State, steps: seq<Step>)
    requires Ordered(s) && CanRun(c, s, steps)
    ensures Ordered(Run(c, s, steps))
    decreases |steps|
  {
    if steps != [] { OrderedRun(c, Apply(c, s, steps[0]), steps[1..]); }
  }

  lemma {:induction false} NothingRunsRun(c: Config, s: State, steps: seq<Step>)
    requires NothingRuns(s) && !c.Arms() && CanRun(c, s, steps)
    ensures NothingRuns(Run(c, s, steps))
    decreases |steps|
  {
    if steps != [] { NothingRunsRun(c, Apply(c, s, steps[0]), steps[1..]); }
  }

  /**
   With the worker's real steps, task starts keep the minimum interval in every run exactly when there is none to keep
   or the task never runs.
   */
  lemma StepSpacingIff(c: Config, now: nat)
    ensures StepsSpaced(c, now) <==> c.min == 0 || !c.Arms()
  {
    if c.min == 0 || !c.Arms() {
      forall steps: seq<Step> | CanRun(c, Init(now), steps)
        ensures Spaced(Run(c, Init(now), steps).starts, c.min)
      {
        if c.min == 0 { OrderedRun(c, Init(now), steps); } else { NothingRunsRun(c, Init(now), steps); }
      }
    } else {
      var steps := TwoWorkers(c, now);
    }
  }

  /** Wherever whole firings keep a minimum interval, interrupted ones do not. */
  lemma SpacingNeedsAtomicFiring(c: Config, now: nat)
    requires c.Arms() && c.min > 0 && SpacingCondition(c, now) && now + 2 * INVALID_INTERVAL < CLOCK_RANGE
    ensures AlwaysSpaced(c, now) && !StepsSpaced(c, now)
  {
    MinimumSpacingIff(c, now);
    StepSpacingIff(c, now);
  }

  // ---- punctual runs: a short interval ----

  /** Between rounds: idle, and every worker is inside the task. */
  ghost predicate Settling(s: State) { Idle(s) && !PreRun(s) && s.pending == map[] }

  /** Ask so that the first timer to come due is the one armed first; a second request pushes the delay timer back. */
  lemma {:induction false} Ask(c: Config, s: State, a: seq<Step>) returns (steps: seq<Step>)
    requires c.Arms() && Interval(c) < c.min && CanRun(c, s, a) && Punctual(c, s, a) && Settling(Run(c, s, a))
    ensures CanRun(c, s, steps) && Punctual(c, s, steps)
    ensures var t, u := Run(c, s, a), Run(c, s, steps);
            var q := u.core.pool.queue;
            && u.now == t.now && u.workers == t.workers && u.starts == t.starts
            && t.core.pool.nextId in q && q[t.core.pool.nextId] == t.now + Interval(c)
            && (forall id | id in q :: t.now + Interval(c) <= q[id])
            && q.Keys <= {u.core.forceId, u.core.delayId}
            && u.core.last == 0 && !u.core.suspended && u.core.pool.nextId >= 1
  {
    steps := RunThen(c, s, a, Execute(0, true));
    if c.HasForce() { steps := RunThen(c, s, steps, Execute(1, true)); }
  }

  /** One round: ask, wait for the timer, and start the task. */
  lemma {:induction false} Round(c: Config, s: State, a: seq<Step>) returns (steps: seq<Step>)
    requires c.Arms() && Interval(c) < c.min && CanRun(c, s, a) && Punctual(c, s, a) && Settling(Run(c, s, a))
    ensures CanRun(c, s, steps) && Punctual(c, s, steps) && Settling(Run(c, s, steps))
    ensures var t, u := Run(c, s, a), Run(c, s, steps);
            u.now == t.now + Interval(c) && u.starts == t.starts + [u.now]
  {
    var t := Run(c, s, a);
    var id := t.core.pool.nextId;
    steps := Ask(c, s, a);
    assert QuietFor(Run(c, s, steps), Interval(c));
    steps := Ticks(c, s, steps, Interval(c));
    steps := RunThen(c, s, steps, Dequeue(id));
    StopIdles(c, Run(c, s, steps), id);
    steps := RunThen(c, s, steps, Stop(id));
    steps := RunThen(c, s, steps, Start(id));
  }

  lemma {:induction false} TwoShortRounds(c: Config, now: nat)
    requires c.Arms() && Interval(c) < c.min
    ensures !PunctualSpaced(c, now)
  {
    var s := Init(now);
    var first := Round(c, s, []);
    var steps := Round(c, s, first);
    var r := Run(c, s, steps).starts;
    assert r[0] + c.min > r[1];
  }

  // ---- punctual runs: both timers due at once ----

  /** The force timer is due at `due`, and the delay timer was pushed back by a request made now. */
  ghost predicate Pushed(c: Config, s: State, due: nat, count: nat) {
    && s.core == Core(2, 1, false, 0, Pool(map[1 := due, 2 := s.now + c.min], 3))
    && s.workers == map[] && s.starts == [] && forall r | r in s.pending :: r < count
  }

  /** A tick later a request pushes the delay timer back again. */
  lemma PushOnce(c: Config, t: State, due: nat, count: nat)
    requires c.HasForce() && c.HasDelay() && c.min > 0 && Pushed(c, t, due, count) && t.now + 1 < due
    ensures OnTime(t) && count !in t.pending
    ensures var u := Apply(c, t, Tick);
            && Enabled(u, Execute(count, true)) && u.now == t.now + 1
            && Pushed(c, Apply(c, u, Execute(count, true)), due, count + 1)
  {
    var u := Apply(c, t, Tick);
    var w := Apply(c, u, Execute(count, true));
    assert w.core.pool.queue == map[1 := due, 2 := w.now + c.min];
  }

  lemma {:induction false} Push(c: Config, s: State, a: seq<Step>, due: nat, count: nat, k: nat)
    returns (steps: seq<Step>)
    requires c.HasForce() && c.HasDelay() && c.min > 0 && CanRun(c, s, a) && Punctual(c, s, a)
    requires Pushed(c, Run(c, s, a), due, count) && Run(c, s, a).now + k < due
    ensures CanRun(c, s, steps) && Punctual(c, s, steps)
    ensures Pushed(c, Run(c, s, steps), due, count + k) && Run(c, s, steps).now == Run(c, s, a).now + k
    decreases k
  {
    if k == 0 {
      steps := a;
    } else {
      PushOnce(c, Run(c, s, a), due, count);
      steps := RunThen(c, s, a, Tick);
      steps := RunThen(c, s, steps, Execute(count, true));
      steps := Push(c, s, steps, due, count + 1, k - 1);
    }
  }

  lemma {:induction false} BothDue(c: Config, now: nat) returns (steps: seq<Step>)
    requires c.HasForce() && c.HasDelay() && 0 < c.min <= c.max
    ensures CanRun(c, Init(now), steps) && Punctual(c, Init(now), steps)
    ensures var t := Run(c, Init(now), steps);
            && t.now == now + c.max && t.starts == [] && t.workers == map[]
            && t.core == Core(2, 1, false, 0, Pool(map[1 := t.now, 2 := t.now], 3))
  {
    var s := Init(now);
    steps := RunThen(c, s, [], Execute(0, true));
    steps := RunThen(c, s, steps, Execute(1, true));
    assert Pushed(c, Run(c, s, steps), now + c.max, 2);
    steps := Push(c, s, steps, now + c.max, 2, c.max - c.min);
    assert QuietFor(Run(c, s, steps), c.min);
    steps := Ticks(c, s, steps, c.min);
  }

  lemma {:induction false} TwoAtOnce(c: Config, now: nat)
    requires c.HasForce() && c.HasDelay() && 0 < c.min <= c.max
    ensures !PunctualSpaced(c, now)
  {
    var s := Init(now);
    var steps := BothDue(c, now);
    steps := RunThen(c, s, steps, Dequeue(1));
    steps := RunThen(c, s, steps, Dequeue(2));
    steps := RunThen(c, s, steps, Stop(1));
    steps := RunThen(c, s, steps, Stop(2));
    steps := RunThen(c, s, steps, Start(1));
    steps := RunThen(c, s, steps, Start(2));
    var r := Run(c, s, steps).starts;
    assert r[0] + c.min > r[1];
  }

  // ---- punctual runs: a single timer ----

  function TimerId(c: Config, s: State): TaskId { if c.HasForce() then s.core.forceId else s.core.delayId }

  /** At most one worker is about to start the task. */
  predicate OneWaiting(workers: map<TaskId, Phase>) {
    forall i, j | i in workers && j in workers :: workers[i] != Running && workers[j] != Running ==> i == j
  }

  ghost predicate After(s: State, min: nat, time: nat) {
    s.starts != [] ==> s.starts[|s.starts| - 1] + min <= time
  }

  /** With at most one worker about to start the task, what is queued is at least the minimum interval away from it. */
  ghost predicate ApartInv(c: Config, s: State) {
    && s.core.pool.Valid()
    && (forall id | id in s.core.pool.queue :: id == TimerId(c, s))
    && (if c.HasForce() then s.core.delayId == INVALID_TASK_ID else s.core.forceId == INVALID_TASK_ID)
    && After(s, 0, s.now)
    && (forall id | id in s.core.pool.queue :: After(s, c.min, s.core.pool.queue[id]))
    && OneWaiting(s.workers)
    && (PreRun(s) ==> After(s, c.min, s.now))
    && (PreRun(s) ==> forall id | id in s.core.pool.queue :: s.now + c.min <= s.core.pool.queue[id])
    && Spaced(s.starts, c.min)
  }

  lemma ApartTimer(c: Config, s: State, known: bool)
    requires OneSlowTimer(c) && c.min > 0 && ApartInv(c, s)
    ensures ApartInv(c, s.(core := StartTimer(c, s.core, s.now, known)))
  {
  }

  lemma ApartDequeue(c: Config, s: State, id: TaskId)
    requires c.min > 0 && ApartInv(c, s) && Enabled(s, Dequeue(id))
    ensures ApartInv(c, Apply(c, s, Dequeue(id)))
  {
    assert Apply(c, s, Dequeue(id)).core.pool.queue == map[];
    assert !PreRun(s);
  }

  lemma ApartStart(c: Config, s: State, id: TaskId)
    requires c.min > 0 && ApartInv(c, s) && Enabled(s, Start(id))
    ensures ApartInv(c, Apply(c, s, Start(id)))
  {
    var t := Apply(c, s, Start(id));
    assert PreRun(s);
    assert forall j | j in t.workers :: t.workers[j] == Running;
  }

  /** What the invariant does not mention: open `Defer` objects, unserved requests, when a `Defer` last ended. */
  lemma ApartFrame(c: Config, s: State, t: State)
    requires ApartInv(c, s) && t.core == s.core && t.now == s.now && t.workers == s.workers && t.starts == s.starts
    ensures ApartInv(c, t)
  {
    assert PreRun(t) <==> PreRun(s);
  }

  lemma ApartRequest(c: Config, s: State, step: Step)
    requires OneSlowTimer(c) && c.min > 0 && ApartInv(c, s) && Enabled(s, step) && (step.Execute? || step.HoldEnd?)
    ensures ApartInv(c, Apply(c, s, step))
  {
    ApartTimer(c, s, step.known);
    ApartFrame(c, s.(core := StartTimer(c, s.core, s.now, step.known)), Apply(c, s, step));
  }

  lemma ApartStop(c: Config, s: State, step: Step)
    requires OneSlowTimer(c) && c.min > 0 && ApartInv(c, s) && Enabled(s, step) && (step.Stop? || step.HoldStop?)
    ensures ApartInv(c, Apply(c, s, step))
  {
    assert Apply(c, s, step).core.pool.queue == map[];
    if step.Stop? { assert PreRun(s); }
  }

  lemma ApartFinish(c: Config, s: State, id: TaskId)
    requires c.min > 0 && ApartInv(c, s) && Enabled(s, Finish(id))
    ensures ApartInv(c, Apply(c, s, Finish(id)))
  {
  }

  lemma ApartStep(c: Config, s: State, step: Step)
    requires OneSlowTimer(c) && c.min > 0 && ApartInv(c, s) && Enabled(s, step)
    requires step.Tick? ==> OnTime(s)
    ensures ApartInv(c, Apply(c, s, step))
  {
    match step {
      case Execute(_, _) => ApartRequest(c, s, step);
      case HoldEnd(_, _) => ApartRequest(c, s, step);
      case Dequeue(id) => ApartDequeue(c, s, id);
      case Start(id) => ApartStart(c, s, id);
      case Stop(_) => ApartStop(c, s, step);
      case HoldStop(_) => ApartStop(c, s, step);
      case Finish(id) => ApartFinish(c, s, id);
      case _ =>
    }
  }

  lemma {:induction false} ApartRun(c: Config, s: State, steps: seq<Step>)
    requires OneSlowTimer(c) && c.min > 0 && ApartInv(c, s) && CanRun(c, s, steps) && Punctual(c, s, steps)
    ensures ApartInv(c, Run(c, s, steps))
    decreases |steps|
  {
    if steps != [] {
      ApartStep(c, s, steps[0]);
      ApartRun(c, Apply(c, s, steps[0]), steps[1..]);
    }
  }

  /**
   With a pool that is always on time the minimum interval is kept in every run exactly when there is none to keep, the
   task never runs, or only one timer is used and its interval is no shorter. With both timers it never is: requests can
   push the delay timer to where the force timer is due.
   */
  lemma PunctualSpacingIff(c: Config, now: nat)
    ensures PunctualSpaced(c, now) <==> c.min == 0 || !c.Arms() || OneSlowTimer(c)
  {
    if c.min == 0 || !c.Arms() {
      StepSpacingIff(c, now);
      assert StepsSpaced(c, now);
    } else if OneSlowTimer(c) {
      forall steps: seq<Step> | CanRun(c, Init(now), steps) && Punctual(c, Init(now), steps)
        ensures Spaced(Run(c, Init(now), steps).starts, c.min)
      {
        ApartRun(c, Init(now), steps);
      }
    } else if Interval(c) < c.min {
      TwoShortRounds(c, now);
    } else {
      TwoAtOnce(c, now);
    }
  }
}
