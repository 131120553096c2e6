/**
 When the timers of an actuator are due, and what that means for a request: how soon an idle actuator reacts, how long
 further requests hold it back, and that an open `Defer` holds it back altogether.
 */
module ActuatorDue {
  import opened ActuatorOverlap
  import opened ActuatorSpec
  import opened ActuatorTiming

  /** Since the last time stamp at least the minimum interval has passed; the clock is unsigned and may wrap. */
  predicate Rested(c: Config, last: nat, now: nat) {
    if now < c.min then last + c.min <= now + CLOCK_RANGE else last + c.min <= now
  }

  /** A queued task and when it is due. */
  predicate DueAt(s: Core, id: TaskId, due: nat) { id in s.pool.queue && s.pool.queue[id] == due }

  /** Every task but one is as it was. */
  ghost predicate OthersStay(s: Core, t: Core, except: TaskId) {
    forall id | id in s.pool.queue && id != except :: DueAt(t, id, s.pool.queue[id])
  }

  /** The force timer: armed once, and never moved until it is stopped. */
  lemma ForceDue(c: Config, s: Core, now: nat, known: bool)
    requires c.HasForce() && !s.suspended && s.pool.Valid() && s.forceId < s.pool.nextId && s.delayId < s.pool.nextId
    requires s.forceId == s.delayId ==> s.forceId == INVALID_TASK_ID
    ensures var t := StartTimer(c, s, now, known);
            if s.forceId == INVALID_TASK_ID then t.forceId != INVALID_TASK_ID && DueAt(t, t.forceId, now + c.max)
            else t.forceId == s.forceId && (t.forceId in t.pool.queue <==> s.forceId in s.pool.queue)
    ensures OthersStay(s, StartTimer(c, s, now, known), s.delayId)
  {
  }

  /**
   The delay timer: an idle one is due after the first interval if the actuator has rested, else after the minimum
   interval; a queued one is pushed back by the minimum interval.
   */
  lemma DelayDue(c: Config, s: Core, now: nat, known: bool)
    requires c.HasDelay() && !s.suspended && s.pool.Valid() && now < CLOCK_RANGE
    ensures var t := StartTimer(c, s, now, known);
            && (s.delayId == INVALID_TASK_ID ==>
                  && t.delayId != INVALID_TASK_ID
                  && DueAt(t, t.delayId, now + if Rested(c, s.last, now) then c.first else c.min))
            && (s.delayId in s.pool.queue && s.delayId != INVALID_TASK_ID ==>
                  t.delayId == s.delayId && DueAt(t, t.delayId, now + c.min))
  {
  }

  /** Without a pool, or while suspended, a request arms nothing. */
  lemma NothingDue(c: Config, s: Core, now: nat, known: bool)
    requires !c.hasPool || s.suspended
    ensures StartTimer(c, s, now, known) == s
  {
  }

  // ---- an idle actuator reacts within the first interval ----

  predicate WorkerOrClock(step: Step) { step.Tick? || step.Dequeue? || step.Stop? || step.Start? || step.Finish? }

  /** The request is served, a worker is about to serve it, or a task is due by `due`. */
  ghost predicate ServedBy(s: State, req: nat, due: nat) {
    && (req in s.pending ==> s.now <= due)
    && (req in s.pending ==> PreRun(s) || exists id :: id in s.core.pool.queue && s.core.pool.queue[id] <= due)
  }

  lemma ServedStep(c: Config, s: State, step: Step, req: nat, due: nat)
    requires ServedBy(s, req, due) && Enabled(s, step) && WorkerOrClock(step)
    requires step.Tick? ==> OnTime(s)
    ensures ServedBy(Apply(c, s, step), req, due)
  {
    var t := Apply(c, s, step);
    match step {
      case Dequeue(id) => assert t.workers[id] == Fired;
      case Stop(id) => assert t.workers[id] == Stopped;
      case Finish(_) =>
        if PreRun(s) {
          var j :| j in s.workers && s.workers[j] != Running;
          assert t.workers[j] != Running;
        }
      case _ =>
    }
  }

  lemma {:induction false} ServedRun(c: Config, s: State, steps: seq<Step>, req: nat, due: nat)
    requires ServedBy(s, req, due) && CanRun(c, s, steps) && Punctual(c, s, steps)
    requires forall i | 0 <= i < |steps| :: WorkerOrClock(steps[i])
    ensures ServedBy(Run(c, s, steps), req, due)
    decreases |steps|
  {
    if steps != [] {
      ServedStep(c, s, steps[0], req, due);
      ServedRun(c, Apply(c, s, steps[0]), steps[1..], req, due);
    }
  }

  /**
   In any state of any run: a request that finds the delay timer idle is served within the first interval if the
   actuator has rested, and within the minimum interval if not, as long as the pool is on time and nobody asks or defers
   meanwhile.
   */
  lemma IdleReactsInTime(
    c: Config, begin: nat, before: seq<Step>, req: nat, known: bool, after: seq<Step>, s: State, asked: State)
    requires c.HasDelay() && CanRun(c, Init(begin), before) && s == Run(c, Init(begin), before)
    requires !s.core.suspended && s.core.delayId == INVALID_TASK_ID && s.now < CLOCK_RANGE
    requires req !in s.pending && asked == Apply(c, s, Execute(req, known))
    requires CanRun(c, asked, after) && Punctual(c, asked, after)
    requires forall i | 0 <= i < |after| :: WorkerOrClock(after[i])
    ensures var end := Run(c, asked, after);
            req in end.pending ==> end.now <= s.now + if Rested(c, s.core.last, s.now) then c.first else c.min
  {
    InvRun(c, Init(begin), before);
    DelayDue(c, s.core, s.now, known);
    var due := s.now + if Rested(c, s.core.last, s.now) then c.first else c.min;
    assert asked.core.pool.queue[asked.core.delayId] == due;
    ServedRun(c, asked, after, req, due);
  }

  // ---- further requests hold a waiting one back ----

  predicate NotDefer(step: Step) { WorkerOrClock(step) || step.Execute? }

  /** Before `due` nothing can fire. */
  ghost predicate HeldUntil(s: State, due: nat, starts: seq<nat>) {
    s.now < due ==>
      && s.core.pool.Valid() && s.core.forceId == INVALID_TASK_ID && !PreRun(s) && s.starts == starts
      && s.core.delayId in s.core.pool.queue && s.core.delayId != INVALID_TASK_ID
      && forall id | id in s.core.pool.queue :: due <= s.core.pool.queue[id]
  }

  lemma HeldStep(c: Config, s: State, step: Step, due: nat, starts: seq<nat>)
    requires c.HasDelay() && !c.HasForce() && HeldUntil(s, due, starts) && Enabled(s, step) && NotDefer(step)
    requires s.now < due ==> due <= s.now + c.min
    ensures HeldUntil(Apply(c, s, step), due, starts)
    ensures var t := Apply(c, s, step); t.now < due ==> due <= t.now + c.min
  {
    var t := Apply(c, s, step);
    if step.Finish? && PreRun(t) {
      var j :| j in t.workers && t.workers[j] != Running;
      assert s.workers[j] != Running;
    }
  }

  lemma {:induction false} HeldRun(c: Config, s: State, steps: seq<Step>, due: nat, starts: seq<nat>)
    requires c.HasDelay() && !c.HasForce() && HeldUntil(s, due, starts) && CanRun(c, s, steps)
    requires s.now < due ==> due <= s.now + c.min
    requires forall i | 0 <= i < |steps| :: NotDefer(steps[i])
    ensures HeldUntil(Run(c, s, steps), due, starts)
    decreases |steps|
  {
    if steps != [] {
      HeldStep(c, s, steps[0], due, starts);
      HeldRun(c, Apply(c, s, steps[0]), steps[1..], due, starts);
    }
  }

  /**
   Without a force interval, in any state of any run: a request that finds the delay timer queued, and no worker about
   to start the task, keeps the task from starting for the minimum interval, whatever is asked meanwhile and however the
   pool behaves.
   */
  lemma RequestHoldsBack(
    c: Config, begin: nat, before: seq<Step>, req: nat, known: bool, after: seq<Step>, s: State, asked: State)
    requires c.HasDelay() && !c.HasForce() && CanRun(c, Init(begin), before) && s == Run(c, Init(begin), before)
    requires !s.core.suspended && s.core.delayId in s.core.pool.queue && !PreRun(s) && s.now < CLOCK_RANGE
    requires req !in s.pending && asked == Apply(c, s, Execute(req, known))
    requires CanRun(c, asked, after) && forall i | 0 <= i < |after| :: NotDefer(after[i])
    ensures var end := Run(c, asked, after); end.now < s.now + c.min ==> end.starts == s.starts
  {
    InvRun(c, Init(begin), before);
    NoForce(c, Init(begin), before);
    DelayDue(c, s.core, s.now, known);
    assert HeldUntil(asked, s.now + c.min, s.starts) by {
      assert forall id | id in s.core.pool.queue :: id == s.core.delayId;
      assert !PreRun(asked);
    }
    HeldRun(c, asked, after, s.now + c.min, s.starts);
  }

  lemma {:induction false} NoForce(c: Config, s: State, steps: seq<Step>)
    requires !c.HasForce() && s.core.forceId == INVALID_TASK_ID && CanRun(c, s, steps)
    ensures Run(c, s, steps).core.forceId == INVALID_TASK_ID
    decreases |steps|
  {
    if steps != [] { NoForce(c, Apply(c, s, steps[0]), steps[1..]); }
  }

  // ---- an open `Defer` holds the actuator back altogether ----

  /** Nothing is queued and nothing can be; the workers are those there were. */
  ghost predicate Deferred(s: State, workers: set<TaskId>) {
    s.core.suspended && s.core.pool.queue == map[] && s.workers.Keys <= workers
  }

  lemma {:induction false} DeferredRun(c: Config, s: State, steps: seq<Step>, workers: set<TaskId>)
    requires Deferred(s, workers) && CanRun(c, s, steps)
    requires forall i | 0 <= i < |steps| :: !steps[i].HoldActivate?
    ensures Deferred(Run(c, s, steps), workers)
    ensures !PreRun(s) ==> Run(c, s, steps).starts == s.starts
    decreases |steps|
  {
    if steps != [] {
      var t := Apply(c, s, steps[0]);
      assert t.core.pool.queue == map[];
      if !PreRun(s) { assert !PreRun(t) by { assert forall id | id in t.workers :: t.workers[id] == Running; } }
      DeferredRun(c, t, steps[1..], workers);
    }
  }

  lemma {:induction false} SuspendedStays(c: Config, s: State, steps: seq<Step>)
    requires s.core.suspended && CanRun(c, s, steps) && forall i | 0 <= i < |steps| :: !steps[i].HoldActivate?
    ensures Run(c, s, steps).core.suspended
    decreases |steps|
  {
    if steps != [] { SuspendedStays(c, Apply(c, s, steps[0]), steps[1..]); }
  }

  /** Whatever a run from the start has queued is one of the two timers. */
  lemma QueuedAreTimers(c: Config, begin: nat, steps: seq<Step>)
    requires CanRun(c, Init(begin), steps)
    ensures var s := Run(c, Init(begin), steps);
            StopTimer(c, s.core).pool.queue == map[]
  {
    if c.Arms() { InvRun(c, Init(begin), steps); } else { NothingRunsRun(c, Init(begin), steps); }
  }

  /**
   In any run: a `Defer` suspends the actuator and, possibly after other steps, cancels its timers. From then on no task
   is queued and no new worker appears until some `Defer` resumes it, however often the actuator is asked; the task can
   only be started by a worker that was already under way.
   */
  lemma DeferHoldsBack(
    c: Config, begin: nat, before: seq<Step>, h: nat, between: seq<Step>, after: seq<Step>, s: State, held: State)
    requires CanRun(c, Init(begin), before) && Enabled(Run(c, Init(begin), before), HoldSuspend(h))
    requires CanRun(c, Apply(c, Run(c, Init(begin), before), HoldSuspend(h)), between)
    requires s == Run(c, Apply(c, Run(c, Init(begin), before), HoldSuspend(h)), between)
    requires Enabled(s, HoldStop(h)) && held == Apply(c, s, HoldStop(h)) && CanRun(c, held, after)
    requires forall i | 0 <= i < |between| :: !between[i].HoldActivate?
    requires forall i | 0 <= i < |after| :: !after[i].HoldActivate?
    ensures var end := Run(c, held, after);
            && end.core.pool.queue == map[] && end.workers.Keys <= s.workers.Keys
            && (!PreRun(s) ==> end.starts == s.starts)
  {
    var first := RunThen(c, Init(begin), before, HoldSuspend(h));
    RunConcat(c, Init(begin), first, between);
    QueuedAreTimers(c, begin, first + between);
    SuspendedStays(c, Apply(c, Run(c, Init(begin), before), HoldSuspend(h)), between);
    assert PreRun(held) <==> PreRun(s);
    DeferredRun(c, held, after, s.workers.Keys);
  }
}
