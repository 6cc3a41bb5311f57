/** Single flight with one coalesced trailing run (packages/calc-engine/src/delta.ts:164-250). */
module Scheduler {
  import opened Json
  import opened Climb

  /** A requested warm; no list is a full sweep. */
  datatype Task = Task(rootIRIs: Option<seq<string>>)

  const FULL_SWEEP := Task(None)

  /** What the run of a task covers: `evaluateForRoots` takes an empty list as every root. */
  predicate Covers(task: Task, root: string)
  {
    task.rootIRIs.None? || task.rootIRIs.value == [] || root in task.rootIRIs.value
  }

  /** Full sweeps and non-empty root lists. */
  predicate Proper(task: Task)
  {
    task.rootIRIs.Some? ==> task.rootIRIs.value != []
  }

  datatype Sched = Sched(running: Option<Task>, queued: Option<Task>)

  const IDLE := Sched(None, None)

  /** The queue after a trigger that could not start. */
  function Merge(queued: Option<Task>, task: Task): Task
  {
    if queued.None? then task
    else if queued.value.rootIRIs.None? || task.rootIRIs.None? then FULL_SWEEP
    else Task(Some(Uniq(queued.value.rootIRIs.value + task.rootIRIs.value)))
  }

  /** `runOrQueue` */
  function Triggered(s: Sched, task: Task): Sched
  {
    if s.running.Some? then s.(queued := Some(Merge(s.queued, task))) else s.(running := Some(task))
  }

  /** The `finally` block of a run: the queued task, if any, starts at once. */
  function Finished(s: Sched): Sched
  {
    if s.queued.Some? then Triggered(Sched(None, None), s.queued.value) else Sched(None, None)
  }

  class Subscription {
    var running: Option<Task>
    var queued: Option<Task>

    function State(): Sched
      reads this
    {
      Sched(running, queued)
    }

    constructor ()
      ensures State() == IDLE
    {
      running, queued := None, None;
    }

    method RunOrQueue(task: Task)
      modifies this
      ensures State() == Triggered(old(State()), task)
    {
      if running.Some? {
        if queued.None? || queued.value.rootIRIs.None? {
          if queued.None? { queued := Some(task); }
          else if task.rootIRIs.None? { queued := Some(task); }
        } else if task.rootIRIs.None? {
          queued := Some(task);
        } else {
          queued := Some(Task(Some(Uniq(queued.value.rootIRIs.value + task.rootIRIs.value))));
        }
        return;
      }
      running := Some(task);
    }

    /** The run in flight has ended, with or without an error. */
    method Finish()
      requires running.Some?
      modifies this
      ensures State() == Finished(old(State()))
    {
      running := None;
      if queued.Some? {
        var next := queued.value;
        queued := None;
        RunOrQueue(next);
      }
    }
  }

  // ----- merging -----

  /** Merging proper tasks covers exactly what either covers, and stays proper. */
  lemma MergeCovers(queued: Option<Task>, task: Task, root: string)
    requires Proper(task) && (queued.Some? ==> Proper(queued.value))
    ensures Proper(Merge(queued, task))
    ensures Covers(Merge(queued, task), root) <==> Covers(task, root) || (queued.Some? && Covers(queued.value, root))
  {
    if queued.Some? && queued.value.rootIRIs.Some? && task.rootIRIs.Some? {
      var all := queued.value.rootIRIs.value + task.rootIRIs.value;
      AddMembers([], all, root);
      AddMembers([], all, all[0]);
    }
  }

  /**
   * Properness is what makes it so: against a queued root list, a targeted task merges
   * without loss exactly when it is proper.
   */
  lemma TargetedMergeLosslessIff(list: seq<string>, task: Task)
    requires list != [] && task.rootIRIs.Some?
    ensures Proper(task) <==>
            forall root :: Covers(task, root) ==> Covers(Merge(Some(Task(Some(list))), task), root)
  {
    if Proper(task) {
      forall root | Covers(task, root) ensures Covers(Merge(Some(Task(Some(list))), task), root) {
        MergeCovers(Some(Task(Some(list))), task, root);
      }
    } else {
      var root := Longer(list);
      assert list + [] == list;
      AddMembers([], list, root);
      AddMembers([], list, list[0]);
      assert Covers(task, root) && !Covers(Merge(Some(Task(Some(list))), task), root);
    }
  }

  /** A string that is not in the list. */
  function Longer(list: seq<string>): (r: string)
    ensures forall s :: s in list ==> |s| < |r|
  {
    if list == [] then "x"
    else
      var rest := Longer(list[1..]);
      assert list == [list[0]] + list[1..];
      rest + list[0]
  }

  // ----- every interleaving of triggers and run ends -----

  datatype Action = Trigger(task: Task) | End

  /** The scheduler together with every task a run was started for and the number of ended runs. */
  datatype Log = Log(sched: Sched, starts: seq<Task>, ended: nat)

  const START := Log(IDLE, [], 0)

  predicate Enabled(log: Log, action: Action)
  {
    action.End? ==> log.sched.running.Some?
  }

  function Next(log: Log, action: Action): Log
  {
    match action
    case Trigger(task) =>
      Log(Triggered(log.sched, task),
          if log.sched.running.Some? then log.starts else log.starts + [task], log.ended)
    case End =>
      Log(Finished(log.sched),
          if log.sched.queued.Some? then log.starts + [log.sched.queued.value] else log.starts, log.ended + 1)
  }

  function Replay(log: Log, actions: seq<Action>): Log
  {
    if actions == [] then log else Next(Replay(log, actions[..|actions| - 1]), actions[|actions| - 1])
  }

  ghost predicate LegalTrace(log: Log, actions: seq<Action>)
  {
    forall k :: 0 <= k < |actions| ==>
      Enabled(Replay(log, actions[..k]), actions[k]) &&
      (actions[k].Trigger? ==> Proper(actions[k].task))
  }

  /** One run in flight at most, nothing queued while idle, and the queue is proper. */
  predicate Consistent(log: Log)
  {
    && |log.starts| == log.ended + (if log.sched.running.Some? then 1 else 0)
    && (log.sched.queued.Some? ==> log.sched.running.Some? && Proper(log.sched.queued.value))
    && (log.sched.running.Some? ==> log.starts[|log.starts| - 1] == log.sched.running.value)
  }

  lemma {:induction false} MutualExclusion(actions: seq<Action>)
    requires LegalTrace(START, actions)
    ensures Consistent(Replay(START, actions))
  {
    if actions != [] {
      var n := |actions| - 1;
      LegalPrefix(START, actions, n);
      MutualExclusion(actions[..n]);
      StaysConsistent(Replay(START, actions[..n]), actions[n]);
    }
  }

  lemma StaysConsistent(log: Log, action: Action)
    requires Consistent(log) && Enabled(log, action) && (action.Trigger? ==> Proper(action.task))
    ensures Consistent(Next(log, action))
  {
    if action.Trigger? {
      MergeCovers(log.sched.queued, action.task, "");
    }
  }

  lemma LegalPrefix(log: Log, actions: seq<Action>, n: nat)
    requires LegalTrace(log, actions) && n <= |actions|
    ensures LegalTrace(log, actions[..n])
  {
    forall k | 0 <= k < n ensures Enabled(Replay(log, actions[..n][..k]), actions[..n][k]) {
      assert actions[..n][..k] == actions[..k];
    }
  }

  /** Some run started since the first `since` ones covers the root, or the queue does. */
  ghost predicate Served(log: Log, since: nat, root: string)
  {
    || (exists j :: since <= j < |log.starts| && Covers(log.starts[j], root))
    || (log.sched.queued.Some? && Covers(log.sched.queued.value, root))
  }

  lemma ServedOnce(log: Log, since: nat, root: string, action: Action)
    requires Consistent(log) && Served(log, since, root) && since <= |log.starts|
    requires Enabled(log, action) && (action.Trigger? ==> Proper(action.task))
    ensures Served(Next(log, action), since, root) && since <= |Next(log, action).starts|
  {
    var after := Next(log, action);
    if j :| since <= j < |log.starts| && Covers(log.starts[j], root) {
      assert after.starts[j] == log.starts[j];
    } else if action.Trigger? {
      MergeCovers(log.sched.queued, action.task, root);
    } else {
      assert after.starts[|log.starts|] == log.sched.queued.value;
    }
  }

  lemma TriggerServes(log: Log, task: Task, root: string)
    requires Consistent(log) && Proper(task) && Covers(task, root)
    ensures Served(Next(log, Trigger(task)), |log.starts|, root)
  {
    if log.sched.running.Some? {
      MergeCovers(log.sched.queued, task, root);
    } else {
      assert Next(log, Trigger(task)).starts[|log.starts|] == task;
    }
  }

  lemma {:induction false} StillServed(log: Log, since: nat, root: string, later: seq<Action>)
    requires Consistent(log) && since <= |log.starts| && Served(log, since, root) && LegalTrace(log, later)
    ensures Consistent(Replay(log, later)) && since <= |Replay(log, later).starts|
    ensures Served(Replay(log, later), since, root)
  {
    if later != [] {
      var n := |later| - 1;
      LegalPrefix(log, later, n);
      StillServed(log, since, root, later[..n]);
      var before := Replay(log, later[..n]);
      ServedOnce(before, since, root, later[n]);
      StaysConsistent(before, later[n]);
    }
  }

  /**
   * No lost trigger. After any history and a trigger, and after whatever happens next,
   * every root the trigger asked for is covered by a run that started at or after the
   * trigger, or is still covered by the queue.
   */
  lemma NoLostTrigger(history: seq<Action>, task: Task, later: seq<Action>, root: string)
    requires LegalTrace(START, history) && Proper(task) && Covers(task, root)
    requires LegalTrace(Next(Replay(START, history), Trigger(task)), later)
    ensures Served(Replay(Next(Replay(START, history), Trigger(task)), later), |Replay(START, history).starts|, root)
  {
    MutualExclusion(history);
    var log := Replay(START, history);
    TriggerServes(log, task, root);
    StaysConsistent(log, Trigger(task));
    StillServed(Next(log, Trigger(task)), |log.starts|, root, later);
  }
}
