/**
 The timer state of one actuator, and what each critical section of `ActuatorBase` does to it.
 The executor pool is the environment: a table of queued tasks with the time each is due.
 */
module ActuatorSpec {

  type TaskId = nat

  const INVALID_TASK_ID: TaskId := 0
  const INVALID_INTERVAL: nat := 0xFFFF_FFFF
  const CLOCK_RANGE: nat := 0x1_0000_0000_0000_0000

  type Interval = x: nat | x <= INVALID_INTERVAL

  datatype Config = Config(first: Interval, min: Interval, max: Interval, hasPool: bool) {
    predicate HasForce() { hasPool && max != INVALID_INTERVAL }
    predicate HasDelay() { hasPool && first != INVALID_INTERVAL && min != INVALID_INTERVAL }

    /** A request arms at least one timer. */
    predicate Arms() { HasForce() || HasDelay() }
  }

  datatype Pool = Pool(queue: map<TaskId, nat>, nextId: TaskId) {
    ghost predicate Valid() {
      && INVALID_TASK_ID < nextId
      && forall id | id in queue :: INVALID_TASK_ID < id < nextId
    }

    function Schedule(due: nat): Pool { Pool(queue[nextId := due], nextId + 1) }

    /** Resets a queued task. For a task that already left the queue, the pool may or may not still know it. */
    function Reset(id: TaskId, due: nat, known: bool): (Pool, TaskId) {
      if id in queue then (this.(queue := queue[id := due]), id)
      else (this, if known then id else INVALID_TASK_ID)
    }

    function Remove(id: TaskId): Pool { this.(queue := queue - {id}) }
  }

  datatype Core = Core(delayId: TaskId, forceId: TaskId, suspended: bool, last: nat, pool: Pool)

  const CORE0 := Core(INVALID_TASK_ID, INVALID_TASK_ID, false, 0, Pool(map[], 1))

  /** The unsigned 64-bit comparison that chooses between the first and the minimum interval. */
  predicate Settled(last: nat, now: nat, min: nat) {
    last <= (now - min) % CLOCK_RANGE
  }

  function ArmForce(c: Config, s: Core, now: nat): Core {
    if s.forceId == INVALID_TASK_ID && c.max != INVALID_INTERVAL
    then s.(forceId := s.pool.nextId, pool := s.pool.Schedule(now + c.max))
    else s
  }

  function ArmDelay(c: Config, s: Core, now: nat, known: bool): Core {
    if c.first == INVALID_INTERVAL || c.min == INVALID_INTERVAL then s
    else if s.delayId == INVALID_TASK_ID then
      s.(delayId := s.pool.nextId,
         pool := s.pool.Schedule(now + if Settled(s.last, now, c.min) then c.first else c.min))
    else
      var (pool, id) := s.pool.Reset(s.delayId, now + c.min, known);
      s.(delayId := id, pool := pool)
  }

  function StartTimer(c: Config, s: Core, now: nat, known: bool): Core {
    if !c.hasPool || s.suspended then s
    else ArmDelay(c, ArmForce(c, s, now), now, known)
  }

  function StopTimer(c: Config, s: Core): Core {
    s.(forceId := INVALID_TASK_ID, delayId := INVALID_TASK_ID,
       pool := if c.hasPool then s.pool.Remove(s.forceId).Remove(s.delayId) else s.pool)
  }

  // ---- the system: clock, pool workers, open Defer objects, unserved requests ----

  /** Where a pool worker stands: dequeued, past `StopTimer`, inside the task, or (gone) after the time stamp. */
  datatype Phase = Fired | Stopped | Running

  /** Where a `Defer` stands: after `Suspend`, after `StopTimer`, or after `Active` and before `StartTimer`. */
  datatype Hold = Suspended | Open | Activated

  /**
   `pending` maps each request that no task start has followed to its time;
   `released` is when a `Defer` last ended; `starts` lists the times of task starts.
   */
  datatype State = State(
    core: Core,
    now: nat,
    workers: map<TaskId, Phase>,
    holds: map<nat, Hold>,
    pending: map<nat, nat>,
    released: nat,
    starts: seq<nat>)

  datatype Step =
    | Tick
    | Execute(req: nat, known: bool)
    | Dequeue(id: TaskId)
    | Stop(id: TaskId)
    | Start(id: TaskId)
    | Finish(id: TaskId)
    | HoldSuspend(h: nat)
    | HoldStop(h: nat)
    | HoldActivate(h: nat)
    | HoldEnd(h: nat, known: bool)

  function Init(now: nat): State {
    State(CORE0, now, map[], map[], map[], 0, [])
  }

  predicate Enabled(s: State, step: Step) {
    match step
    case Tick => true
    case Execute(req, _) => req !in s.pending
    case Dequeue(id) => id in s.core.pool.queue && s.core.pool.queue[id] <= s.now
    case Stop(id) => id in s.workers && s.workers[id] == Fired
    case Start(id) => id in s.workers && s.workers[id] == Stopped
    case Finish(id) => id in s.workers && s.workers[id] == Running
    case HoldSuspend(h) => h !in s.holds
    case HoldStop(h) => h in s.holds && s.holds[h] == Suspended
    case HoldActivate(h) => h in s.holds && s.holds[h] == Open
    case HoldEnd(h, _) => h in s.holds && s.holds[h] == Activated
  }

  function Apply(c: Config, s: State, step: Step): State
    requires Enabled(s, step)
  {
    match step
    case Tick => s.(now := s.now + 1)
    case Execute(req, known) =>
      s.(core := StartTimer(c, s.core, s.now, known), pending := s.pending[req := s.now])
    case Dequeue(id) =>
      s.(core := s.core.(pool := s.core.pool.Remove(id)), workers := s.workers[id := Fired])
    case Stop(id) => s.(core := StopTimer(c, s.core), workers := s.workers[id := Stopped])
    case Start(id) => s.(workers := s.workers[id := Running], pending := map[], starts := s.starts + [s.now])
    case Finish(id) => s.(core := s.core.(last := s.now), workers := s.workers - {id})
    case HoldSuspend(h) => s.(core := s.core.(suspended := true), holds := s.holds[h := Suspended])
    case HoldStop(h) => s.(core := StopTimer(c, s.core), holds := s.holds[h := Open])
    case HoldActivate(h) => s.(core := s.core.(suspended := false), holds := s.holds[h := Activated])
    case HoldEnd(h, known) =>
      s.(core := StartTimer(c, s.core, s.now, known), holds := s.holds - {h}, released := s.now)
  }

  /** `steps` can be taken from `s`, one after another. */
  predicate CanRun(c: Config, s: State, steps: seq<Step>)
    decreases |steps|
  {
    steps == [] || (Enabled(s, steps[0]) && CanRun(c, Apply(c, s, steps[0]), steps[1..]))
  }

  function Run(c: Config, s: State, steps: seq<Step>): State
    requires CanRun(c, s, steps)
    decreases |steps|
  {
    if steps == [] then s else Run(c, Apply(c, s, steps[0]), steps[1..])
  }

  /** Some worker has been dequeued and has not started the task yet. */
  ghost predicate PreRun(s: State) {
    exists id :: id in s.workers && s.workers[id] != Running
  }

  /** Something in the system will still start the task. */
  ghost predicate Covered(s: State) {
    s.core.pool.queue != map[] || s.holds != map[] || PreRun(s)
  }

  ghost predicate Armed(s: State, id: TaskId) {
    id != INVALID_TASK_ID ==> id in s.core.pool.queue || (id in s.workers && s.workers[id] == Fired)
  }

  /** The part of the invariant that speaks of timers. */
  ghost predicate TimerInv(s: State) {
    && s.core.pool.Valid()
    && (forall id | id in s.workers :: INVALID_TASK_ID < id < s.core.pool.nextId && id !in s.core.pool.queue)
    && s.core.pool.queue.Keys <= {s.core.forceId, s.core.delayId}
    && Armed(s, s.core.forceId)
    && Armed(s, s.core.delayId)
  }

  /** Something is queued, or a worker has just been dequeued. */
  ghost predicate Pending(s: State) { s.core.pool.queue != map[] || PreRun(s) }

  ghost predicate Inv(s: State) {
    && TimerInv(s)
    && (s.core.suspended ==> exists h :: h in s.holds && s.holds[h] != Activated)
    && (s.pending != map[] ==> Covered(s))
  }

  lemma ArmForceKeeps(c: Config, s: State)
    requires TimerInv(s)
    ensures var t := s.(core := ArmForce(c, s.core, s.now));
            TimerInv(t) && (Pending(s) || c.max != INVALID_INTERVAL ==> Pending(t))
  {
    var t := s.(core := ArmForce(c, s.core, s.now));
    if s.core.forceId == INVALID_TASK_ID && c.max != INVALID_INTERVAL {
      assert s.core.pool.nextId in t.core.pool.queue;
    }
  }

  lemma ArmDelayKeeps(c: Config, s: State, known: bool)
    requires TimerInv(s)
    ensures var t := s.(core := ArmDelay(c, s.core, s.now, known));
            TimerInv(t) && (Pending(s) || (c.first != INVALID_INTERVAL && c.min != INVALID_INTERVAL) ==> Pending(t))
  {
    var t := s.(core := ArmDelay(c, s.core, s.now, known));
    if c.first != INVALID_INTERVAL && c.min != INVALID_INTERVAL && s.core.delayId == INVALID_TASK_ID {
      assert s.core.pool.nextId in t.core.pool.queue;
    }
  }

  lemma StartTimerKeeps(c: Config, s: State, known: bool, t: State)
    requires TimerInv(s) && c.Arms()
    requires t == s.(core := StartTimer(c, s.core, s.now, known))
    ensures TimerInv(t) && t.core.suspended == s.core.suspended
    ensures t.core.suspended || Pending(t)
  {
    if !s.core.suspended {
      ArmForceKeeps(c, s);
      ArmDelayKeeps(c, s.(core := ArmForce(c, s.core, s.now)), known);
    }
  }

  lemma InvStep(c: Config, s: State, step: Step)
    requires Inv(s) && c.Arms() && Enabled(s, step)
    ensures Inv(Apply(c, s, step))
  {
    var t := Apply(c, s, step);
    match step {
      case Execute(_, known) => StartTimerKeeps(c, s, known, s.(core := t.core));
      case HoldEnd(_, known) =>
        StartTimerKeeps(c, s, known, s.(core := t.core));
        if s.core.suspended {
          var k :| k in s.holds && s.holds[k] != Activated;
          assert t.holds[k] != Activated;
        }
      case HoldSuspend(h) => assert t.holds[h] == Suspended;
      case HoldStop(h) => assert t.holds[h] == Open;
      case HoldActivate(h) => assert t.holds[h] == Activated;
      case Dequeue(id) => assert t.workers[id] == Fired;
      case Stop(id) => assert t.workers[id] == Stopped;
      case Finish(_) =>
        if PreRun(s) {
          var j :| j in s.workers && s.workers[j] != Running;
          assert t.workers[j] != Running;
        }
      case Start(id) =>
      case Tick =>
    }
  }

  lemma {:induction false} InvRun(c: Config, s: State, steps: seq<Step>)
    requires Inv(s) && c.Arms() && CanRun(c, s, steps)
    ensures Inv(Run(c, s, steps))
    decreases |steps|
  {
    if steps != [] {
      InvStep(c, s, steps[0]);
      InvRun(c, Apply(c, s, steps[0]), steps[1..]);
    }
  }

  /** Every request that is still unserved is covered, in every state of every run from `now`. */
  ghost predicate NeverLoses(c: Config, now: nat) {
    forall steps: seq<Step> :: CanRun(c, Init(now), steps) ==>
      var s := Run(c, Init(now), steps);
      s.pending != map[] ==> Covered(s)
  }

  /**
   No request is lost, whatever the interleaving of requests, overlapping workers and overlapping
   `Defer` objects, exactly when the configuration lets a request arm a timer.
   */
  lemma NoLostRequest(c: Config, now: nat)
    ensures NeverLoses(c, now) <==> c.Arms()
  {
    if c.Arms() {
      forall steps: seq<Step> | CanRun(c, Init(now), steps)
        ensures var s := Run(c, Init(now), steps); s.pending != map[] ==> Covered(s)
      {
        InvRun(c, Init(now), steps);
      }
    } else {
      var steps := [Execute(0, true)];
      var s := Apply(c, Init(now), steps[0]);
      assert 0 in s.pending;
      assert CanRun(c, s, steps[1..]);
      assert Run(c, Init(now), steps) == Run(c, s, steps[1..]) == s;
      assert !Covered(s);
    }
  }

  /** Once nothing is queued, held or about to run, every request made so far has been served. */
  lemma QuiescentMeansServed(c: Config, now: nat, steps: seq<Step>)
    requires c.Arms() && CanRun(c, Init(now), steps)
    ensures var s := Run(c, Init(now), steps);
            s.core.pool.queue == map[] && s.holds == map[] && !PreRun(s) ==> s.pending == map[]
    ensures |Run(c, Init(now), steps).core.pool.queue| <= 2
  {
    InvRun(c, Init(now), steps);
    var s := Run(c, Init(now), steps);
    assert |s.core.pool.queue.Keys| <= |{s.core.forceId, s.core.delayId}| by {
      Subset(s.core.pool.queue.Keys, {s.core.forceId, s.core.delayId});
    }
  }

  lemma Subset<T>(a: set<T>, b: set<T>)
    requires a <= b
    ensures |a| <= |b|
  {
    assert b == a + (b - a);
  }
}
