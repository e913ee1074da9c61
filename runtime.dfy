/**
 * `AgentRuntimeManager.run_with_timeout` (agent_runtime_manager.py): the running
 * task is filed in `tasks` under its name and removed again in `finally`, however
 * the awaited task ends. The task handle and the way the task ends are
 * parameters; `Start` and `Finish` are the two halves either side of the await,
 * between which other coroutines may run.
 */
module Runtime {
  import opened Wrappers

  /** An `asyncio.Task`, by identity. */
  type TaskHandle = nat

  /** How `asyncio.wait_for` ends. */
  datatype Awaited = Completed | FailedWith(error: string) | TimedOut

  /** What the caller of `run_with_timeout` sees when it raises. */
  datatype RunError = Timeout | Propagated(error: string)

  /** The caller's view: nothing on completion, a TimeoutError on timeout, and the
      task's own exception otherwise. */
  function Surfaced(a: Awaited): (r: Result<(), RunError>)
    ensures r.Ok? <==> a.Completed?
    ensures a.TimedOut? <==> r == Err(Timeout)
    ensures a.FailedWith? ==> r == Err(Propagated(a.error))
  {
    match a
    case Completed => Ok(())
    case FailedWith(e) => Err(Propagated(e))
    case TimedOut => Err(Timeout)
  }

  /** The table before the await holds the new task under `name`, replacing any
      earlier entry; popping it afterwards leaves the table without `name`, with
      every other entry as it was: an earlier entry under the same name is lost,
      not restored. */
  lemma FiledThenPopped(tasks: map<string, TaskHandle>, name: string, task: TaskHandle)
    ensures tasks[name := task] - {name} == tasks - {name}
    ensures name !in tasks[name := task] - {name}
    ensures forall n :: n != name && n in tasks ==> n in tasks[name := task] - {name} && (tasks[name := task] - {name})[n] == tasks[n]
    ensures name in tasks ==> tasks[name := task] - {name} != tasks
  {
    assert name !in tasks - {name};
  }

  class AgentRuntimeManager {
    var tasks: map<string, TaskHandle>

    constructor ()
      ensures tasks == map[]
    {
      tasks := map[];
    }

    /** `self.tasks[name] = task`, before the await. */
    method Start(name: string, task: TaskHandle)
      modifies this
      ensures tasks == old(tasks)[name := task]
    {
      tasks := tasks[name := task];
    }

    /** The `finally` clause: `self.tasks.pop(name, None)`. */
    method Finish(name: string)
      modifies this
      ensures tasks == old(tasks) - {name}
    {
      tasks := tasks - {name};
    }

    /** `run_with_timeout` with nothing else running during the await: the name is
        gone from the table whichever way the task ends, and every other entry is
        as it was. */
    method RunWithTimeout(name: string, task: TaskHandle, outcome: Awaited) returns (r: Result<(), RunError>)
      modifies this
      ensures r == Surfaced(outcome)
      ensures tasks == old(tasks) - {name}
    {
      Start(name, task);
      r := Surfaced(outcome);
      Finish(name);
      FiledThenPopped(old(tasks), name, task);
    }
  }

  /** Two runs under the same name that overlap: the first to finish removes the
      entry of the one still running, so the table no longer shows it. */
  lemma OverlappingRunsShareEntry(tasks: map<string, TaskHandle>, name: string, first: TaskHandle, second: TaskHandle)
    ensures var during := tasks[name := first][name := second];
            during[name] == second && name !in during - {name}
  {
  }
}
