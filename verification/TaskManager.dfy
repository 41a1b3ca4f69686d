/** The task manager: tasks, their dependencies, and the progress of an iteration
    over them, kept in place. */
module TaskManagers {
  import opened Digraph
  import opened TaskIteration

  datatype Error = InvalidArgument | LogicError | OutOfRange | NoneAvailable | DivideByZero
  datatype Outcome<T> = Success(value: T) | Failure(error: Error)

  datatype TaskType = AgentFunction | IoFunction | MbFunction

  // The task id that ends a worker, and so can be no task's own.
  const TERM_TASK_ID: Id := 0xFFFF_FFFF_FFFF_FFFF

  // Each table is the converse of the other.
  ghost predicate Converse(parents: Parents, children: seq<set<Id>>) {
    && |parents| == |children|
    && (forall i :: 0 <= i < |parents| ==> parents[i] <= Below(|parents|) && children[i] <= Below(|parents|))
    && (forall i, j :: 0 <= i < |parents| && 0 <= j < |parents| ==> (j in parents[i] <==> i in children[j]))
  }

  lemma ConverseIsDependents(parents: Parents, children: seq<set<Id>>, id: Id)
    requires Converse(parents, children) && id < |parents|
    ensures children[id] == Dependents(parents, id)
  {
  }

  class TaskManager {
    const debug: bool
    var tasks: seq<string>
    var nameMap: map<string, Id>
    var parents: seq<set<Id>>
    var children: seq<set<Id>>
    var roots: set<Id>
    var leaves: set<Id>
    var finalised: bool
    var readyTasks: seq<Id>
    var pendingTasks: set<Id>
    var assignedTasks: set<Id>
    var pendingDeps: seq<set<Id>>

    function Current(): Iteration
      reads this
    {
      Iteration(readyTasks, pendingTasks, assignedTasks, pendingDeps)
    }

    ghost predicate Named()
      reads `tasks, `nameMap
    {
      && (forall i :: 0 <= i < |tasks| ==> tasks[i] in nameMap && nameMap[tasks[i]] == i)
      && (forall x :: x in nameMap ==> nameMap[x] < |tasks| && tasks[nameMap[x]] == x)
    }

    ghost predicate Valid()
      reads this
    {
      && Named() && |parents| == |tasks| && Converse(parents, children)
      && roots == Roots(parents) && leaves == Roots(children)
      && (forall i :: 0 <= i < |parents| ==> i !in parents[i])
      && (debug ==> Acyclic(DependencyEdges(parents)))
      && (finalised ==> Sound(parents, Current()))
    }

    constructor (debug: bool)
      ensures Valid() && this.debug == debug && tasks == [] && !finalised
    {
      this.debug := debug;
      tasks, nameMap, parents, children, roots, leaves := [], map[], [], [], {}, {};
      finalised, readyTasks, pendingTasks, assignedTasks, pendingDeps := false, [], {}, {}, [];
      EmptyAcyclic();
    }

    // A new task starts without dependencies and dependents.
    method RegisterTask(taskName: string) returns (r: Outcome<Id>)
      requires Valid()
      modifies `tasks, `nameMap, `parents, `children, `roots, `leaves
      ensures Valid()
      ensures r.Failure? <==> finalised || taskName in old(nameMap) || (debug && old(|tasks|) == 0xFFFF_FFFF_FFFF_FFFF)
      ensures r.Failure? ==> r.error == (if finalised || taskName in old(nameMap) then LogicError else OutOfRange)
      ensures r.Failure? ==> tasks == old(tasks) && parents == old(parents) && nameMap == old(nameMap)
      ensures r.Success? ==> r.value == old(|tasks|) && tasks == old(tasks) + [taskName]
                             && parents == old(parents) + [{}] && children == old(children) + [{}]
                             && nameMap == old(nameMap)[taskName := r.value]
    {
      if finalised {
        return Failure(LogicError);
      }
      if taskName in nameMap {
        return Failure(LogicError);
      }
      var id := |tasks|;
      if debug && id == TERM_TASK_ID {
        return Failure(OutOfRange);
      }
      TablesGrow(parents, children);
      hide Converse, DependencyEdges, Roots, Reaches, Acyclic, Sound;
      nameMap := nameMap[taskName := id];
      tasks := tasks + [taskName];
      parents, children := parents + [{}], children + [{}];
      roots, leaves := roots + {id}, leaves + {id};
      return Success(id);
    }

    method AddDependency(taskId: Id, dependencyId: Id) returns (r: Outcome<()>)
      requires Valid()
      modifies `parents, `children, `roots, `leaves
      ensures Valid()
      ensures ghost var n := |old(parents)|;
              r == if taskId >= n || dependencyId >= n then Failure(InvalidArgument)
                   else if taskId == dependencyId || finalised then Failure(LogicError)
                   else if debug && Reaches(DependencyEdges(old(parents)), taskId, dependencyId) then Failure(LogicError)
                   else Success(())
      ensures r.Failure? ==> parents == old(parents) && children == old(children)
      ensures r.Success? ==>
                && parents == old(parents)[taskId := old(parents)[taskId] + {dependencyId}]
                && children == old(children)[dependencyId := old(children)[dependencyId] + {taskId}]
                && DependencyEdges(parents) == DependencyEdges(old(parents)) + {(dependencyId, taskId)}
    {
      hide Converse, DependencyEdges, Roots, Reaches, Acyclic, Sound, Named;
      if taskId >= |tasks| || dependencyId >= |tasks| {
        return Failure(InvalidArgument);
      }
      if taskId == dependencyId || finalised {
        return Failure(LogicError);
      }
      if debug {
        var cyclic := WillCauseCyclicDependency(taskId, dependencyId);
        if cyclic {
          return Failure(LogicError);
        }
      }
      ghost var before := DependencyEdges(parents);
      SameLength(parents, children);
      TablesAdd(parents, children, taskId, dependencyId);
      parents := parents[taskId := parents[taskId] + {dependencyId}];
      children := children[dependencyId := children[dependencyId] + {taskId}];
      roots := roots - {taskId};
      leaves := leaves - {dependencyId};
      if debug { AddEdgeAcyclic(before, dependencyId, taskId); }
      return Success(());
    }

    // Searches upwards from the target, depth first.
    method WillCauseCyclicDependency(taskId: Id, target: Id) returns (r: bool)
      requires Converse(parents, children) && taskId < |parents| && target < |parents|
      ensures r <==> taskId == target || Reaches(DependencyEdges(parents), taskId, target)
    {
      hide *;
      if taskId == target {
        return true;
      }
      SearchBegins(parents, children, taskId, target);
      var visited: set<Id> := {};
      var stack := [target];
      while stack != []
        invariant Search(parents, taskId, target, visited, stack)
        decreases Below(|parents|) - visited, |stack|
      {
        var top := |stack| - 1;
        var current := stack[top];
        OnTheStack(parents, taskId, target, visited, stack, current);
        if current == taskId {
          return true;
        }
        var above := Ascending(parents[current] - (visited + {current}), |parents|);
        SearchStep(parents, taskId, target, visited, stack, above);
        stack := stack[..top] + above;
        visited := visited + {current};
      }
      SearchEnds(parents, taskId, target, visited);
      return false;
    }

    method Finalise()
      requires Valid()
      modifies `finalised, `readyTasks, `pendingTasks, `assignedTasks, `pendingDeps
      ensures Valid() && finalised && Current() == Reset(parents)
      ensures (forall i, j :: 0 <= i < j < |readyTasks| ==> readyTasks[i] < readyTasks[j])
      ensures forall i: Id :: i in readyTasks <==> i < |parents| && parents[i] == {}
      ensures pendingDeps == parents && assignedTasks == {} && forall i: Id :: i in pendingTasks <==> i < |parents| && parents[i] != {}
    {
      hide Sound, Converse, DependencyEdges, Acyclic, Roots, Named, InTable;
      finalised := true;
      InTableIf(parents, children);
      ResetSound(parents);
      readyTasks, pendingTasks, assignedTasks, pendingDeps := [], {}, {}, [];
      ResetFields();
      RootsInOrder();
    }

    // Makes a fresh copy of the dependencies and hands out the roots first.
    method ResetFields()
      requires roots == Roots(parents)
      modifies `readyTasks, `pendingTasks, `assignedTasks, `pendingDeps
      ensures Current() == Reset(parents)
    {
      pendingDeps := parents;
      assignedTasks := {};
      readyTasks := Ascending(roots, |parents|);
      pendingTasks := {};
      var i := 0;
      while i < |parents|
        invariant 0 <= i <= |parents|
        invariant pendingTasks == Below(i) - roots
        modifies `pendingTasks
      {
        if i !in roots {
          pendingTasks := pendingTasks + {i};
        }
        i := i + 1;
      }
    }

    // The roots stand in ascending order, and the others wait for all they depend on.
    lemma RootsInOrder()
      requires Current() == Reset(parents)
      ensures forall i, j :: 0 <= i < j < |readyTasks| ==> readyTasks[i] < readyTasks[j]
      ensures forall i: Id :: i in readyTasks <==> i < |parents| && parents[i] == {}
      ensures forall i: Id :: i in pendingTasks <==> i < |parents| && parents[i] != {}
      ensures pendingDeps == parents && assignedTasks == {}
    {
      hide Ascending;
    }

    method IterReset() returns (r: Outcome<()>)
      requires Valid()
      modifies `readyTasks, `pendingTasks, `assignedTasks, `pendingDeps
      ensures Valid() && (r == if finalised then Success(()) else Failure(LogicError))
      ensures Current() == if finalised then Reset(parents) else old(Current())
      ensures r.Success? ==> forall i, j :: 0 <= i < j < |readyTasks| ==> readyTasks[i] < readyTasks[j]
      ensures r.Success? ==> forall i: Id :: i in readyTasks <==> i < |parents| && parents[i] == {}
      ensures r.Success? ==> pendingDeps == parents && assignedTasks == {} && forall i: Id :: i in pendingTasks <==> i < |parents| && parents[i] != {}
    {
      if !finalised {
        return Failure(LogicError);
      }
      InTableIf(parents, children);
      ResetSound(parents);
      ResetFields();
      RootsInOrder();
      return Success(());
    }

    method IterCompleted() returns (r: Outcome<bool>)
      ensures r == if finalised then Success(pendingTasks == {} && assignedTasks == {} && readyTasks == []) else Failure(LogicError)
      ensures r.Success? ==> r.value == Completed(Current())
    {
      if !finalised {
        return Failure(LogicError);
      }
      return Success(pendingTasks == {} && assignedTasks == {} && readyTasks == []);
    }

    method IterTaskPop() returns (r: Outcome<Id>)
      requires Valid()
      modifies `readyTasks, `assignedTasks
      ensures Valid()
      ensures r == if !finalised then Failure(LogicError)
                   else if old(readyTasks) == [] then Failure(NoneAvailable)
                   else Success(old(readyTasks)[|old(readyTasks)| - 1])
      ensures Current() == if r.Success? then Pop(old(Current())) else old(Current())
      ensures r.Success? ==> readyTasks + [r.value] == old(readyTasks) && assignedTasks == old(assignedTasks) + {r.value}
    {
      if !finalised {
        return Failure(LogicError);
      }
      if readyTasks == [] {
        return Failure(NoneAvailable);
      }
      PopSound(parents, Current());
      var last := |readyTasks| - 1;
      var taskId := readyTasks[last];
      readyTasks := readyTasks[..last];
      assignedTasks := assignedTasks + {taskId};
      return Success(taskId);
    }

    method IterTaskDone(taskId: Id) returns (r: Outcome<()>)
      requires Valid()
      modifies `readyTasks, `pendingTasks, `assignedTasks, `pendingDeps
      ensures Valid()
      ensures r == if !finalised then Failure(LogicError)
                   else if taskId !in old(assignedTasks) then Failure(InvalidArgument) else Success(())
      ensures Current() == if r.Success? then Finish(parents, old(Current()), taskId) else old(Current())
      ensures old(readyTasks) <= readyTasks && forall i, j :: |old(readyTasks)| <= i < j < |readyTasks| ==> readyTasks[i] < readyTasks[j]
      ensures r.Success? ==> forall i: Id :: i in readyTasks[|old(readyTasks)|..] <==>
                i < |parents| && taskId in parents[i] && i in old(pendingTasks) && old(pendingDeps)[i] == {taskId}
      ensures r.Success? ==> assignedTasks == old(assignedTasks) - {taskId} && |pendingDeps| == |old(pendingDeps)| == |parents|
      ensures r.Success? ==> forall i :: 0 <= i < |parents| ==> pendingDeps[i] == old(pendingDeps)[i] - {taskId}
      ensures r.Success? ==> forall i: Id :: i in pendingTasks <==> i in old(pendingTasks) && i < |parents| && old(pendingDeps)[i] != {taskId}
    {
      hide Sound, Finish, Converse, DependencyEdges, Acyclic, Roots, Named, Consistent;
      if !finalised {
        return Failure(LogicError);
      }
      if taskId !in assignedTasks {
        return Failure(InvalidArgument);
      }
      ghost var it := Current();
      SoundIs(parents, it, taskId);
      FinishSound(parents, it, taskId);
      assignedTasks := assignedTasks - {taskId};
      ReleaseDependents(taskId, it);
      ReleasedInOrder(parents, it, taskId);
      TickedOff(parents, it, taskId);
      return Success(());
    }

    // Ticks the task off with each of its dependents.
    method ReleaseDependents(taskId: Id, ghost it: Iteration)
      requires Converse(parents, children) && taskId < |parents| && Consistent(parents, it) && taskId in it.issued
      requires Iteration(readyTasks, pendingTasks, assignedTasks, pendingDeps) == it.(issued := it.issued - {taskId})
      modifies `readyTasks, `pendingTasks, `pendingDeps
      ensures Current() == Finish(parents, it, taskId)
    {
      hide *;
      ConverseIsDependents(parents, children, taskId);
      SameLength(parents, children);
      FinishBelowEnds(parents, it, taskId);
      CurrentIs();
      var dependents := children[taskId];
      var i := 0;
      while i < |parents|
        invariant 0 <= i <= |parents| == |pendingDeps|
        invariant Iteration(readyTasks, pendingTasks, it.issued - {taskId}, pendingDeps) == FinishBelow(parents, it, taskId, i)
      {
        FinishBelowNext(parents, it, taskId, i);
        if i in dependents {
          TickOffIs(FinishBelow(parents, it, taskId, i), taskId, i);
          pendingDeps := pendingDeps[i := pendingDeps[i] - {taskId}];
          if pendingDeps[i] == {} {
            readyTasks := readyTasks + [i];
            pendingTasks := pendingTasks - {i};
          }
        }
        i := i + 1;
      }
      CurrentIs();
    }

    lemma CurrentIs()
      ensures Current() == Iteration(readyTasks, pendingTasks, assignedTasks, pendingDeps)
    {
    }
  }

  lemma TickOffIs(it: Iteration, id: Id, k: nat)
    requires k < |it.deps|
    ensures ghost var deps := it.deps[k := it.deps[k] - {id}];
            TickOff(it, id, k) == if deps[k] == {} then Iteration(it.ready + [k], it.pending - {k}, it.issued, deps)
                                  else Iteration(it.ready, it.pending, it.issued, deps)
  {
  }

  lemma SoundIs(parents: Parents, it: Iteration, id: Id)
    requires Sound(parents, it) && id in it.issued
    ensures Consistent(parents, it) && id < |parents|
  {
  }

  // What becomes ready comes behind what was, in ascending order: the tasks that waited for
  // this one alone.
  lemma ReleasedInOrder(parents: Parents, it: Iteration, id: Id)
    requires Consistent(parents, it) && id in it.issued && id < |parents|
    ensures ghost var ready := Finish(parents, it, id).ready;
            && it.ready <= ready && |it.deps| == |parents|
            && (forall i, j :: |it.ready| <= i < j < |ready| ==> ready[i] < ready[j])
            && forall i: Id :: i in ready[|it.ready|..] <==>
                 i < |parents| && id in parents[i] && i in it.pending && it.deps[i] == {id}
  {
    hide Ascending, Elements;
    var more := Ascending(Released(parents, it, id), |parents|);
    assert Finish(parents, it, id).ready == it.ready + more;
    assert Finish(parents, it, id).ready[|it.ready|..] == more;
    NotDoneYet(it, id);
    forall i: Id ensures i in more <==> i < |parents| && id in parents[i] && i in it.pending && it.deps[i] == {id} {
      if i < |parents| && id in parents[i] {
        assert it.deps[i] == parents[i] - Done(it);
      }
    }
  }

  // The others wait for this task no more.
  lemma TickedOff(parents: Parents, it: Iteration, id: Id)
    requires Consistent(parents, it) && id in it.issued && id < |parents|
    ensures ghost var after := Finish(parents, it, id);
            && after.issued == it.issued - {id} && |after.deps| == |it.deps| == |parents|
            && (forall i :: 0 <= i < |parents| ==> after.deps[i] == it.deps[i] - {id})
            && forall i: Id :: i in after.pending <==> i in it.pending && i < |parents| && it.deps[i] != {id}
  {
    hide Ascending, Elements;
    NotDoneYet(it, id);
    forall i: Id | i in it.pending ensures i < |parents| && (i in Released(parents, it, id) <==> it.deps[i] == {id}) {
      assert i in Below(|parents|);
      assert it.deps[i] == parents[i] - Done(it) && it.deps[i] != {};
    }
  }

  lemma NotDoneYet(it: Iteration, id: Id)
    requires id in it.issued
    ensures id !in Done(it)
  {
  }

  lemma SameLength(parents: Parents, children: seq<set<Id>>)
    requires Converse(parents, children)
    ensures |children| == |parents|
  {
  }

  lemma TablesGrow(parents: Parents, children: seq<set<Id>>)
    requires Converse(parents, children)
    ensures Converse(parents + [{}], children + [{}])
    ensures DependencyEdges(parents + [{}]) == DependencyEdges(parents)
    ensures Roots(parents + [{}]) == Roots(parents) + {|parents|}
    ensures Roots(children + [{}]) == Roots(children) + {|parents|}
  {
  }

  lemma TablesAdd(parents: Parents, children: seq<set<Id>>, taskId: Id, dependencyId: Id)
    requires Converse(parents, children) && taskId < |parents| && dependencyId < |parents|
    ensures ghost var parents' := parents[taskId := parents[taskId] + {dependencyId}];
            ghost var children' := children[dependencyId := children[dependencyId] + {taskId}];
            && Converse(parents', children')
            && DependencyEdges(parents') == DependencyEdges(parents) + {(dependencyId, taskId)}
            && Roots(parents') == Roots(parents) - {taskId} && Roots(children') == Roots(children) - {dependencyId}
  {
  }

  lemma EmptyAcyclic()
    ensures Acyclic(DependencyEdges([]))
  {
    forall v: Vertex ensures !Reaches(DependencyEdges([]), v, v) {
      if Reaches(DependencyEdges([]), v, v) {
        var m := FirstEdge(DependencyEdges([]), v, v);
      }
    }
  }

  lemma InTableIf(parents: Parents, children: seq<set<Id>>)
    requires Converse(parents, children)
    ensures InTable(parents)
  {
  }

  // ------------------------------------------------------- the upward search

  ghost predicate IsAncestor(parents: Parents, i: Id, target: Id) {
    i == target || Reaches(DependencyEdges(parents), i, target)
  }

  // Nodes may be stacked twice; but what a visited node still misses lies above
  // it on the stack, so that popping it again stacks nothing.
  ghost predicate Search(parents: Parents, taskId: Id, target: Id, visited: set<Id>, stack: seq<Id>) {
    && InTable(parents) && visited <= Below(|parents|) && taskId !in visited
    && (forall i :: i in visited || i in stack ==> i < |parents| && IsAncestor(parents, i, target))
    && (target in visited || target in stack)
    && (forall i :: i in visited ==> Covered(parents[i], visited, stack))
    && (forall k :: 0 <= k < |stack| && stack[k] in visited ==> Covered(parents[stack[k]], visited, stack[k + 1..]))
  }

  predicate Covered(ps: set<Id>, visited: set<Id>, stack: seq<Id>) {
    forall p :: p in ps ==> p in visited || p in stack
  }

  lemma SearchBegins(parents: Parents, children: seq<set<Id>>, taskId: Id, target: Id)
    requires Converse(parents, children) && taskId < |parents| && target < |parents| && taskId != target
    ensures Search(parents, taskId, target, {}, [target])
  {
  }

  lemma OnTheStack(parents: Parents, taskId: Id, target: Id, visited: set<Id>, stack: seq<Id>, current: Id)
    requires Search(parents, taskId, target, visited, stack) && current in stack && taskId != target
    ensures current < |parents| && current in Below(|parents|)
    ensures current == taskId ==> Reaches(DependencyEdges(parents), taskId, target)
  {
    hide Reaches, DependencyEdges;
  }

  lemma SearchStep(parents: Parents, taskId: Id, target: Id, visited: set<Id>, stack: seq<Id>, above: seq<Id>)
    requires Search(parents, taskId, target, visited, stack) && stack != []
    requires ghost var current := stack[|stack| - 1];
             current != taskId && above == Ascending(parents[current] - (visited + {current}), |parents|)
    ensures ghost var top := |stack| - 1;
            Search(parents, taskId, target, visited + {stack[top]}, stack[..top] + above)
    ensures stack[|stack| - 1] in visited ==> above == []
  {
    hide IsAncestor, InTable, Ascending, Covered;
    var top := |stack| - 1;
    var current := stack[top];
    assert current in stack && stack == stack[..top] + [current];
    SteppedAncestors(parents, target, visited, stack, above);
    if current in visited {
      assert stack[top + 1..] == [];
      NothingMissed(parents, visited, current);
    }
    StepCovers(parents, visited, stack[..top], current, above);
  }

  lemma NothingMissed(parents: Parents, visited: set<Id>, current: Id)
    requires current < |parents| && Covered(parents[current], visited, [])
    ensures Ascending(parents[current] - (visited + {current}), |parents|) == []
  {
    AscendingWithin(parents[current] - (visited + {current}), |parents|);
    hide Ascending;
    assert parents[current] - (visited + {current}) == {};
  }

  lemma SteppedAncestors(parents: Parents, target: Id, visited: set<Id>, stack: seq<Id>, above: seq<Id>)
    requires forall i :: i in visited || i in stack ==> i < |parents| && IsAncestor(parents, i, target)
    requires stack != [] && stack[|stack| - 1] < |parents|
    requires ghost var current := stack[|stack| - 1]; above == Ascending(parents[current] - (visited + {current}), |parents|)
    ensures ghost var top := |stack| - 1;
            forall i :: i in visited + {stack[top]} || i in stack[..top] + above ==> i < |parents| && IsAncestor(parents, i, target)
  {
    var top := |stack| - 1;
    var current := stack[top];
    assert current in stack;
    forall i | i in visited + {current} || i in stack[..top] + above ensures i < |parents| && IsAncestor(parents, i, target) {
      if i in above {
        AncestorStep(parents, i, current, target);
      } else if i in stack[..top] {
        assert i in stack;
      }
    }
  }

  lemma StepCovers(parents: Parents, visited: set<Id>, below: seq<Id>, current: Id, above: seq<Id>)
    requires InTable(parents) && current < |parents| && (forall i :: i in below || i in visited ==> i < |parents|)
    requires forall i :: i in visited ==> Covered(parents[i], visited, below + [current])
    requires forall k :: 0 <= k < |below| && below[k] in visited ==>
               Covered(parents[below[k]], visited, (below + [current])[k + 1..])
    requires above == Ascending(parents[current] - (visited + {current}), |parents|)
    ensures forall i :: i in visited + {current} ==> Covered(parents[i], visited + {current}, below + above)
    ensures forall k :: 0 <= k < |below + above| && (below + above)[k] in visited + {current} ==>
              (below + above)[k] < |parents|
              && Covered(parents[(below + above)[k]], visited + {current}, (below + above)[k + 1..])
  {
    AscendingWithin(parents[current] - (visited + {current}), |parents|);
    assert forall k :: 0 <= k < |above| ==> above[k] !in visited + {current};
    hide *;
    forall i | i in visited + {current} ensures Covered(parents[i], visited + {current}, below + above) {
      CoveredAbove(parents, visited, below, current, above, i);
    }
    forall k | 0 <= k < |below + above| && (below + above)[k] in visited + {current}
      ensures (below + above)[k] < |parents|
              && Covered(parents[(below + above)[k]], visited + {current}, (below + above)[k + 1..])
    {
      StackCovers(parents, visited, below, current, above, k);
    }
  }

  lemma StackCovers(parents: Parents, visited: set<Id>, below: seq<Id>, current: Id, above: seq<Id>, k: nat)
    requires InTable(parents) && current < |parents| && (forall i :: i in below || i in visited ==> i < |parents|)
    requires forall k :: 0 <= k < |below| && below[k] in visited ==>
               Covered(parents[below[k]], visited, (below + [current])[k + 1..])
    requires above == Ascending(parents[current] - (visited + {current}), |parents|)
    requires forall k :: 0 <= k < |above| ==> above[k] !in visited + {current}
    requires k < |below + above| && (below + above)[k] in visited + {current}
    ensures (below + above)[k] < |parents|
            && Covered(parents[(below + above)[k]], visited + {current}, (below + above)[k + 1..])
  {
    hide *;
    assert k < |below|;
    assert below[k] in below;
    assert (below + above)[k + 1..] == below[k + 1..] + above;
    assert (below + [current])[k + 1..] == below[k + 1..] + [current];
    CoveredAbove(parents, visited, below[k + 1..], current, above, below[k]);
  }

  lemma AncestorStep(parents: Parents, i: Id, current: Id, target: Id)
    requires current < |parents| && i in parents[current] && IsAncestor(parents, current, target)
    ensures IsAncestor(parents, i, target)
  {
    var E := DependencyEdges(parents);
    assert (i, current) in E;
    EdgeReaches(E, i, current);
    if current != target {
      Transitive(E, i, current, target);
    }
  }

  // What node v misses stays above it, the popped top aside.
  lemma CoveredAbove(parents: Parents, visited: set<Id>, between: seq<Id>, current: Id, above: seq<Id>, v: Id)
    requires v < |parents| && current < |parents| && InTable(parents) && v in visited + {current}
    requires v in visited ==> Covered(parents[v], visited, between + [current])
    requires above == Ascending(parents[current] - (visited + {current}), |parents|)
    ensures Covered(parents[v], visited + {current}, between + above)
  {
    hide *;
    if v in visited {
      CoveredWithout(parents[v], visited, between, current, above);
    } else {
      NewlyCovered(parents, current, visited, between, above);
    }
  }

  lemma CoveredWithout(ps: set<Id>, visited: set<Id>, stack: seq<Id>, current: Id, above: seq<Id>)
    requires Covered(ps, visited, stack + [current])
    ensures Covered(ps, visited + {current}, stack + above)
  {
    forall p | p in ps ensures p in visited + {current} || p in stack + above {
      assert p in stack + [current] ==> p in stack || p == current;
      assert p in stack ==> p in stack + above;
    }
  }

  lemma NewlyCovered(parents: Parents, current: Id, visited: set<Id>, stack: seq<Id>, above: seq<Id>)
    requires current < |parents| && InTable(parents)
    requires above == Ascending(parents[current] - (visited + {current}), |parents|)
    ensures Covered(parents[current], visited + {current}, stack + above)
  {
    forall p | p in parents[current] ensures p in visited + {current} || p in stack + above {
      assert p in above ==> p in stack + above;
    }
  }

  lemma SearchEnds(parents: Parents, taskId: Id, target: Id, visited: set<Id>)
    requires Search(parents, taskId, target, visited, []) && taskId < |parents|
    ensures !Reaches(DependencyEdges(parents), taskId, target)
  {
    var E, rest := DependencyEdges(parents), Below(|parents|) - visited;
    if Reaches(E, taskId, target) {
      forall e: (Vertex, Vertex) | e in E && e.0 in rest ensures e.1 in rest {
        assert e.1 in visited ==> Covered(parents[e.1], visited, []);
      }
      ClosedUnderReach(E, rest, taskId, target);
    }
  }
}
