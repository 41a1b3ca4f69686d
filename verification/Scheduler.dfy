/** The scheduler's own blocks: where tasks are sent, and what becomes of the tasks
    that workers have completed.  How these blocks interleave with the workers is the
    subject of the executor. */
module Schedulers {
  import opened Digraph
  import opened TaskIteration
  import opened TaskManagers

  class Scheduler {
    var queueCount: nat
    var route: map<TaskType, nat>
    var doneq: seq<Id>
    var iterCount: nat

    ghost predicate Valid()
      reads this
    {
      forall t :: t in route ==> route[t] < queueCount
    }

    constructor (iterCount: nat)
      ensures Valid() && queueCount == 0 && route == map[] && doneq == [] && this.iterCount == iterCount
    {
      queueCount, route, doneq, this.iterCount := 0, map[], [], iterCount;
    }

    method CreateQueue() returns (qid: nat)
      requires Valid()
      modifies `queueCount
      ensures Valid() && qid == old(queueCount) && queueCount == qid + 1
    {
      qid := queueCount;
      queueCount := queueCount + 1;
    }

    // A type is assigned once, to a queue that there is.
    method AssignType(qid: nat, taskType: TaskType) returns (r: Outcome<()>)
      requires Valid()
      modifies `route
      ensures Valid() && (r.Success? <==> qid < queueCount && taskType !in old(route))
      ensures r.Failure? ==> r.error == InvalidArgument
      ensures route == if r.Success? then old(route)[taskType := qid] else old(route)
    {
      if qid >= queueCount {
        return Failure(InvalidArgument);
      }
      if taskType in route {
        return Failure(InvalidArgument);
      }
      route := route[taskType := qid];
      return Success(());
    }

    method TaskDoneCallback(taskId: Id)
      modifies `doneq
      ensures doneq == old(doneq) + [taskId]
    {
      doneq := doneq + [taskId];
    }

    // Hands everything that was completed to the task manager, newest first.
    method DrainDone(tm: TaskManager)
      requires tm.Valid() && tm.finalised && Elements(doneq) <= tm.assignedTasks
      requires forall i, j :: 0 <= i < j < |doneq| ==> doneq[i] != doneq[j]
      modifies `doneq, tm`readyTasks, tm`pendingTasks, tm`assignedTasks, tm`pendingDeps
      ensures tm.Valid() && doneq == []
      ensures tm.Current() == FinishAll(tm.parents, old(tm.Current()), old(doneq))
      ensures Done(tm.Current()) == old(Done(tm.Current())) + Elements(old(doneq))
    {
      FinishAllSound(tm.parents, tm.Current(), doneq);
      while doneq != []
        invariant tm.Valid() && |tm.pendingDeps| == |tm.parents| && Elements(doneq) <= tm.assignedTasks
        invariant forall i, j :: 0 <= i < j < |doneq| ==> doneq[i] != doneq[j]
        invariant FinishAll(tm.parents, tm.Current(), doneq) == FinishAll(tm.parents, old(tm.Current()), old(doneq))
        decreases |doneq|
      {
        hide Finish, Sound;
        var back := doneq[|doneq| - 1];
        assert back in Elements(doneq);
        FinishAssigned(tm.parents, tm.Current(), back);
        var r := tm.IterTaskDone(back);
        doneq := doneq[..|doneq| - 1];
      }
    }
  }

  lemma FinishAssigned(parents: Parents, it: Iteration, id: Id)
    requires |it.deps| == |parents|
    ensures Finish(parents, it, id).issued == it.issued - {id} && |Finish(parents, it, id).deps| == |parents|
  {
  }
}
