/** index.ts of async-oxigraph: saved queries, and one promise with its timer per call. */
module OxigraphClient {

  import opened Json
  import opened OxigraphWorker

  datatype QueryDefinition = QueryDefinition(id: string, query: string)

  function Find(defs: seq<QueryDefinition>, id: string): Option<QueryDefinition>
  {
    if defs == [] then None
    else if defs[0].id == id then Some(defs[0])
    else Find(defs[1..], id)
  }

  ghost predicate UniqueIds(defs: seq<QueryDefinition>)
  {
    forall i, j :: 0 <= i < j < |defs| ==> defs[i].id != defs[j].id
  }

  /** Each definition is added unless its id is taken by then. */
  function Added(defs: seq<QueryDefinition>, more: seq<QueryDefinition>): seq<QueryDefinition>
    decreases |more|
  {
    if more == [] then defs
    else Added(if Find(defs, more[0].id).None? then defs + [more[0]] else defs, more[1..])
  }

  class AsyncOxigraph {
    var queryDefs: seq<QueryDefinition>

    constructor ()
      ensures queryDefs == []
    {
      queryDefs := [];
    }

    method AddQueryDefinitions(defs: seq<QueryDefinition>)
      modifies this
      ensures queryDefs == Added(old(queryDefs), defs)
    {
      var i := 0;
      while i < |defs|
        invariant 0 <= i <= |defs|
        invariant Added(queryDefs, defs[i..]) == Added(old(queryDefs), defs)
      {
        var known := Find(queryDefs, defs[i].id);
        if known.None? {
          queryDefs := queryDefs + [defs[i]];
        }
        i := i + 1;
      }
    }
  }

  lemma {:induction false} FindInConcat(a: seq<QueryDefinition>, b: seq<QueryDefinition>, id: string)
    ensures Find(a + b, id) == if Find(a, id).Some? then Find(a, id) else Find(b, id)
  {
    if a == [] {
      assert a + b == b;
    } else {
      FindInConcat(a[1..], b, id);
      assert (a + b)[1..] == a[1..] + b;
    }
  }

  lemma {:induction false} FindNone(defs: seq<QueryDefinition>, id: string)
    ensures Find(defs, id).None? <==> forall i :: 0 <= i < |defs| ==> defs[i].id != id
  {
    if defs != [] {
      FindNone(defs[1..], id);
      assert forall i :: 0 < i < |defs| ==> defs[i] == defs[1..][i - 1];
    }
  }

  /** The first definition of an id is the one that is kept and found; ids stay unique. */
  lemma {:induction false} FirstDefinitionWins(defs: seq<QueryDefinition>, more: seq<QueryDefinition>, id: string)
    ensures Find(Added(defs, more), id) == Find(defs + more, id)
    ensures UniqueIds(defs) ==> UniqueIds(Added(defs, more))
    decreases |more|
  {
    if more == [] {
      assert defs + more == defs;
    } else {
      var next := if Find(defs, more[0].id).None? then defs + [more[0]] else defs;
      FirstDefinitionWins(next, more[1..], id);
      FindNone(defs, more[0].id);
      FindInConcat(defs, more, id);
      FindInConcat(defs, [more[0]], id);
      FindInConcat(next, more[1..], id);
    }
  }

  datatype Reason = TimedOut | WorkerError(error: string)

  datatype Outcome = Pending | Resolved(reply: Reply) | Rejected(reason: Reason)

  /** A promise keeps the first settlement. */
  function Settle(outcome: Outcome, settlement: Outcome): Outcome
  {
    if outcome.Pending? then settlement else outcome
  }

  /** One call: `since` tells how many replies had been delivered when its listener was added. */
  datatype Call = Call(
    taskID: string, instruction: Instruction, since: nat,
    failed: bool, timer: bool, outcome: Outcome)

  function Started(taskID: string, instruction: Instruction, since: nat): Call
  {
    Call(taskID, instruction, since, false, true, Pending)
  }

  function Expired(c: Call): Call
  {
    c.(failed := true, timer := false, outcome := Settle(c.outcome, Rejected(TimedOut)))
  }

  /** An error rejects; the `resolve` after it then has no effect. */
  function Heard(c: Call, r: Reply): Call
  {
    if r.taskID != c.taskID || c.failed then c
    else
      var rejected := if r.error.Some? then Settle(c.outcome, Rejected(WorkerError(r.error.value))) else c.outcome;
      c.(timer := false, outcome := Settle(rejected, Resolved(r)))
  }

  /** The variables that the closures of one `_runBackgroundTask` share. */
  class BackgroundTask {
    const taskID: string
    const instruction: Instruction
    const since: nat
    var failed: bool
    var timer: bool
    var outcome: Outcome

    constructor (taskID: string, instruction: Instruction, since: nat)
      ensures View() == Started(taskID, instruction, since)
    {
      this.taskID := taskID;
      this.instruction := instruction;
      this.since := since;
      failed := false;
      timer := true;
      outcome := Pending;
    }

    function View(): Call
      reads this
    {
      Call(taskID, instruction, since, failed, timer, outcome)
    }

    method Reject(reason: Reason)
      modifies this`outcome
      ensures outcome == Settle(old(outcome), Rejected(reason))
    {
      if outcome.Pending? {
        outcome := Rejected(reason);
      }
    }

    method Resolve(reply: Reply)
      modifies this`outcome
      ensures outcome == Settle(old(outcome), Resolved(reply))
    {
      if outcome.Pending? {
        outcome := Resolved(reply);
      }
    }

    method OnTimeout()
      modifies this
      ensures View() == Expired(old(View()))
    {
      timer := false;
      failed := true;
      Reject(TimedOut);
    }

    method OnMessage(reply: Reply)
      modifies this
      ensures View() == Heard(old(View()), reply)
    {
      if reply.taskID != taskID {
        return;
      }
      if failed {
        return;
      }
      timer := false;
      if reply.error.Some? {
        Reject(WorkerError(reply.error.value));
      }
      Resolve(reply);
    }
  }
}
