/**
 The actuator objects: fields updated in place under the actuator's mutex.
 Each method is one critical section and is specified by a function of `ActuatorSpec`.
 */
module Actuator {
  import opened ActuatorSpec

  /** The environment: the table of queued tasks of the executor. */
  class ExecutorPool {
    var queue: map<TaskId, nat>
    var nextId: TaskId

    ghost function Model(): Pool reads this { Pool(queue, nextId) }

    constructor ()
      ensures Model() == CORE0.pool
    {
      queue, nextId := map[], 1;
    }

    method Schedule(due: nat) returns (id: TaskId)
      modifies this
      ensures Model() == old(Model()).Schedule(due) && id == old(nextId)
    {
      id := nextId;
      queue := queue[id := due];
      nextId := nextId + 1;
    }

    method Reset(id: TaskId, due: nat, known: bool) returns (r: TaskId)
      modifies this
      ensures (Model(), r) == old(Model()).Reset(id, due, known)
    {
      if id in queue {
        queue := queue[id := due];
        r := id;
      } else {
        r := if known then id else INVALID_TASK_ID;
      }
    }

    method Remove(id: TaskId)
      modifies this
      ensures Model() == old(Model()).Remove(id)
    {
      queue := queue - {id};
    }
  }

  /** A `DelayActuator`; task 0 stands for an unset task, `runs` records the tasks that were called. */
  class DelayActuator {
    const firstDelayInterval: Interval
    const minExecuteInterval: Interval
    const maxExecuteInterval: Interval
    const pool: ExecutorPool?
    var delayTaskId: TaskId
    var forceTaskId: TaskId
    var isSuspend: bool
    var lastExecuteTimePoint: nat
    var task: nat
    var runs: seq<nat>

    ghost function Conf(): Config {
      Config(firstDelayInterval, minExecuteInterval, maxExecuteInterval, pool != null)
    }

    ghost function Model(): Core
      reads this, pool
    {
      Core(delayTaskId, forceTaskId, isSuspend, lastExecuteTimePoint,
           if pool == null then CORE0.pool else pool.Model())
    }

    constructor (first: Interval, min: Interval, max: Interval, pool: ExecutorPool?)
      requires pool != null ==> pool.Model() == CORE0.pool
      ensures Model() == CORE0 && Conf() == Config(first, min, max, pool != null)
      ensures this.pool == pool && runs == [] && task == 0
    {
      firstDelayInterval, minExecuteInterval, maxExecuteInterval := first, min, max;
      this.pool := pool;
      delayTaskId, forceTaskId, isSuspend := INVALID_TASK_ID, INVALID_TASK_ID, false;
      lastExecuteTimePoint, task, runs := 0, 0, [];
    }

    method SetTask(task: nat)
      modifies this`task
      ensures this.task == task
    {
      this.task := task;
    }

    method Suspend()
      modifies this`isSuspend
      ensures Model() == old(Model()).(suspended := true)
    {
      isSuspend := true;
    }

    method Active()
      modifies this`isSuspend
      ensures Model() == old(Model()).(suspended := false)
    {
      isSuspend := false;
    }

    method StartTimer(now: nat, known: bool)
      modifies this`delayTaskId, this`forceTaskId, pool
      ensures Model() == ActuatorSpec.StartTimer(Conf(), old(Model()), now, known)
    {
      if pool == null || isSuspend {
        return;
      }
      if forceTaskId == INVALID_TASK_ID && maxExecuteInterval != INVALID_INTERVAL {
        forceTaskId := pool.Schedule(now + maxExecuteInterval);
      }
      if firstDelayInterval == INVALID_INTERVAL || minExecuteInterval == INVALID_INTERVAL {
        return;
      }
      if delayTaskId == INVALID_TASK_ID {
        delayTaskId := pool.Schedule(
          now + if Settled(lastExecuteTimePoint, now, minExecuteInterval) then firstDelayInterval
                else minExecuteInterval);
      } else {
        delayTaskId := pool.Reset(delayTaskId, now + minExecuteInterval, known);
      }
    }

    method StopTimer()
      modifies this`delayTaskId, this`forceTaskId, pool
      ensures Model() == ActuatorSpec.StopTimer(Conf(), old(Model()))
    {
      if pool != null {
        pool.Remove(forceTaskId);
        pool.Remove(delayTaskId);
      }
      forceTaskId := INVALID_TASK_ID;
      delayTaskId := INVALID_TASK_ID;
    }

    method Execute(now: nat, known: bool)
      modifies this`delayTaskId, this`forceTaskId, pool
      ensures Model() == ActuatorSpec.StartTimer(Conf(), old(Model()), now, known)
    {
      StartTimer(now, known);
    }

    /** Timers are stopped before the task is called, and an unset task is skipped. */
    method ExecuteTask()
      modifies this`delayTaskId, this`forceTaskId, this`runs, pool
      ensures Model() == ActuatorSpec.StopTimer(Conf(), old(Model()))
      ensures runs == old(runs) + (if task == 0 then [] else [task])
    {
      StopTimer();
      var current := task;
      if current != 0 {
        runs := runs + [current];
      }
    }

    /** What both timers run; `finished` is the clock when the task returns. */
    method OnTimer(finished: nat)
      modifies this`delayTaskId, this`forceTaskId, this`runs, this`lastExecuteTimePoint, pool
      ensures Model() == ActuatorSpec.StopTimer(Conf(), old(Model())).(last := finished)
      ensures runs == old(runs) + (if task == 0 then [] else [task])
    {
      ExecuteTask();
      lastExecuteTimePoint := finished;
    }
  }

  /** A `Defer` over one actuator: the constructor suspends and cancels, `End` resumes and arms again. */
  class Defer {
    const actuator: DelayActuator

    constructor (actuator: DelayActuator)
      modifies actuator`isSuspend, actuator`delayTaskId, actuator`forceTaskId, actuator.pool
      ensures this.actuator == actuator
      ensures actuator.Model() == ActuatorSpec.StopTimer(actuator.Conf(), old(actuator.Model()).(suspended := true))
    {
      this.actuator := actuator;
      new;
      actuator.Suspend();
      actuator.StopTimer();
    }

    method End(now: nat, known: bool)
      modifies actuator`isSuspend, actuator`delayTaskId, actuator`forceTaskId, actuator.pool
      ensures actuator.Model()
           == ActuatorSpec.StartTimer(actuator.Conf(), old(actuator.Model()).(suspended := false), now, known)
    {
      actuator.Active();
      actuator.StartTimer(now, known);
    }
  }
}
