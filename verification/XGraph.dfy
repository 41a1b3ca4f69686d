/** The task graph of one agent: the passes that turn a state graph into a
    dependency graph, in place. */
module XGraphs {
  import opened Digraph
  import opened DataFlow
  import opened TaskGraph
  import opened Tasks
  import opened AgentGraph

  class XGraph {
    const agentName: string
    var vertex2task: seq<Task>
    var edges: set<Edge>
    var startTask: Task?
    var endTask: Task?
    var endTasks: set<Task>

    constructor (agentName: string)
      ensures this.agentName == agentName && vertex2task == [] && edges == {} && endTasks == {}
      ensures startTask == null && endTask == null
    {
      this.agentName, vertex2task, edges, endTasks := agentName, [], {}, {};
      startTask, endTask := null, null;
    }

    ghost predicate Valid()
      reads this, vertex2task
    {
      && Distinct(vertex2task)
      && InRange(Pairs(edges), |vertex2task|)
      && (forall i :: 0 <= i < |vertex2task| ==> vertex2task[i].Valid())
    }

    // ------------------------------------------------------ removing vertices

    method RemoveVertex(v: Vertex)
      requires v < |vertex2task|
      modifies `vertex2task, `edges
      ensures vertex2task == old(vertex2task)[..v] + old(vertex2task)[v + 1..]
      ensures edges == WithoutVertex(old(edges), v)
    {
      var edgesToRemove := set e | e in edges && (e.source == v || e.target == v);
      edges := edges - edgesToRemove;
      vertex2task := vertex2task[..v] + vertex2task[v + 1..];
      edges := set e | e in edges :: Shifted(v, e);
    }

    // Largest first, so that the numbers still to be removed stay right.
    method RemoveVertices(tasks: seq<Vertex>)
      requires forall i, j :: 0 <= i < j < |tasks| ==> tasks[i] != tasks[j]
      requires forall v :: v in tasks ==> v < |vertex2task|
      modifies `vertex2task, `edges
      ensures vertex2task == Kept(old(vertex2task), Elements(tasks))
      ensures edges == Renumbered(old(edges), Elements(tasks))
    {
      var sorted := SortLargestFirst(tasks);
      ghost var del: set<Vertex> := {};
      KeptIdentity(vertex2task, del);
      RenumberedNone(edges);
      assert Elements(sorted[..0]) == {};
      hide Kept, Renumbered, WithoutVertex, SortLargestFirst, Descending;
      var k := 0;
      while k < |sorted|
        invariant 0 <= k <= |sorted| && del == Elements(sorted[..k])
        invariant vertex2task == Kept(old(vertex2task), del)
        invariant edges == Renumbered(old(edges), del)
      {
        var v := sorted[k];
        assert v in sorted;
        KeptExtend(old(vertex2task), del, v);
        RenumberedExtend(old(edges), del, v);
        RemoveVertex(v);
        assert sorted[..k + 1] == sorted[..k] + [v];
        del := del + {v};
        k := k + 1;
      }
      assert sorted[..|sorted|] == sorted;
      assert del == Elements(tasks);
    }

    // Joins the source of s to every target of outs.
    method BypassEdge(s: Edge, outs: set<Edge>, kind: DependencyType)
      modifies `edges
      ensures edges == old(edges) + Fan(s, outs, kind)
    {
      var rest := outs;
      while rest != {}
        invariant rest <= outs
        invariant forall e :: e in edges <==> e in old(edges) || e in Fan(s, outs - rest, kind)
        decreases rest
      {
        var t :| t in rest;
        edges := edges + {Edge(s.source, t.target, kind)};
        rest := rest - {t};
      }
      assert outs - rest == outs;
    }

    // Joins every source of v to every target of v.
    method BypassVertex(v: Vertex, kind: DependencyType)
      requires (v, v) !in Pairs(edges)
      modifies `edges
      ensures edges == WithBypass(old(edges), v, kind)
    {
      ghost var es := edges;
      var todo, outs := InEdges(edges, v), OutEdges(edges, v);
      ghost var all := es + Fans(todo, outs, kind);
      FansAreBypass(es, v, kind);
      FansNone(outs, kind);
      hide *;
      while todo != {}
        invariant edges + Fans(todo, outs, kind) == all
        decreases todo
      {
        var s :| s in todo;
        FansStep(todo - {s}, s, outs, kind);
        assert todo - {s} + {s} == todo;
        ghost var before := edges;
        BypassEdge(s, outs, kind);
        todo := todo - {s};
        assert edges + Fans(todo, outs, kind) == before + (Fans(todo, outs, kind) + Fan(s, outs, kind));
      }
    }

    // The bypassing loop of contractVertices; the vertices stay for now.
    method BypassVertices(taskType: TaskType, kind: DependencyType) returns (vertexToDelete: seq<Vertex>)
      requires Acyclic(Pairs(edges))
      modifies `edges
      ensures vertexToDelete == IndicesOf(NodesOf(vertex2task), taskType)
      ensures edges == WithBypasses(old(edges), vertexToDelete, kind)
    {
      ghost var nodes := NodesOf(vertex2task);
      vertexToDelete := [];
      var v := 0;
      assert IndicesOf(nodes[..0], taskType) == [] && WithBypasses(edges, [], kind) == edges;
      hide IndicesOf, WithBypasses, WithBypass, Pairs, Acyclic;
      while v < |vertex2task|
        invariant 0 <= v <= |vertex2task|
        invariant vertexToDelete == IndicesOf(nodes[..v], taskType)
        invariant edges == WithBypasses(old(edges), vertexToDelete, kind)
      {
        IndicesNext(nodes, v, taskType);
        assert nodes[v].kind == vertex2task[v].taskType;
        if vertex2task[v].taskType == taskType {
          NoLoopAfterBypasses(old(edges), vertexToDelete, kind, v);
          WithBypassesStep(old(edges), vertexToDelete, v, kind);
          BypassVertex(v, kind);
          vertexToDelete := vertexToDelete + [v];
        }
        v := v + 1;
      }
      assert nodes[..|nodes|] == nodes;
    }

    // Replaces every vertex of the given type by edges around it.
    method ContractVertices(taskType: TaskType, kind: DependencyType)
      requires Valid() && Acyclic(Pairs(edges))
      modifies `vertex2task, `edges
      ensures Valid() && Acyclic(Pairs(edges))
      ensures var cs := IndicesOf(old(NodesOf(vertex2task)), taskType);
              && vertex2task == Kept(old(vertex2task), Elements(cs))
              && edges == Contracted(old(edges), cs, kind)
    {
      var vertexToDelete := BypassVertices(taskType, kind);
      IndicesAscending(NodesOf(vertex2task), taskType);
      ContractedValid(vertex2task, old(edges), vertexToDelete, kind);
      RemoveVertices(vertexToDelete);
      forall i | 0 <= i < |vertex2task| ensures vertex2task[i].Valid() {
        assert vertex2task[i] in old(vertex2task);
      }
    }

    // ------------------------------------------------------ data dependencies

    // Collects, for the task of v, what its in-edge sources have recorded.
    method CopyWritingAndReadingVerticesFromInEdges(v: Vertex, task: Task)
      requires Valid() && v < |vertex2task| && vertex2task[v] == task
      requires (v, v) !in Pairs(edges)
      modifies task`lastWrites, task`lastReads
      ensures forall x, w :: Recorded(task.lastWrites, x, w) <==>
        || old(Recorded(task.lastWrites, x, w))
        || exists u :: 0 <= u < |vertex2task| && (u, v) in Pairs(edges)
                       && old(Recorded(vertex2task[u].lastWrites, x, w))
      ensures forall x, w :: Recorded(task.lastReads, x, w) <==>
        || old(Recorded(task.lastReads, x, w))
        || exists u :: 0 <= u < |vertex2task| && (u, v) in Pairs(edges)
                       && old(Recorded(vertex2task[u].lastReads, x, w))
    {
      hide Distinct, InRange, Recorded, Pairs, Valid, Joined;
      var todo := InEdges(edges, v);
      OthersApart(v);
      ghost var written, seen := LastWritesOf(vertex2task), LastReadsOf(vertex2task);
      var sources: set<Vertex> := {};
      NoneJoined(task.lastWrites, written);
      NoneJoined(task.lastReads, seen);
      while todo != {}
        invariant todo <= edges && forall e :: e in todo ==> e.target == v
        invariant forall u :: u in sources ==> u < |vertex2task| && (u, v) in Pairs(edges)
        invariant forall e :: e in edges && e.target == v ==> e in todo || e.source in sources
        invariant forall u :: 0 <= u < |vertex2task| && u != v ==>
                    vertex2task[u].lastWrites == written[u] && vertex2task[u].lastReads == seen[u]
        invariant Joined(written[v], written, sources, task.lastWrites) && Joined(seen[v], seen, sources, task.lastReads)
        decreases todo
      {
        var e :| e in todo;
        var t := vertex2task[e.source];
        ghost var w, r := task.lastWrites, task.lastReads;
        task.lastWrites := CopyVarWriteSets(t.lastWrites, task.lastWrites);
        task.lastReads := CopyVarWriteSets(t.lastReads, task.lastReads);
        OneMoreJoined(written[v], written, sources, w, e.source, task.lastWrites);
        OneMoreJoined(seen[v], seen, sources, r, e.source, task.lastReads);
        sources := sources + {e.source};
        todo := todo - {e};
      }
      JoinedAll(written[v], written, sources, task.lastWrites);
      JoinedAll(seen[v], seen, sources, task.lastReads);
    }

    lemma OthersApart(v: Vertex)
      requires Valid() && v < |vertex2task| && (v, v) !in Pairs(edges)
      ensures forall u :: 0 <= u < |vertex2task| && u != v ==> vertex2task[u] != vertex2task[v]
      ensures forall e :: e in edges ==> (e.source, e.target) in Pairs(edges) && e.source < |vertex2task|
      ensures forall u :: (u, v) in Pairs(edges) ==> exists e :: e in edges && e.source == u && e.target == v
    {
      assert forall e :: e in edges ==> (e.source, e.target) in Pairs(edges);
    }

    // One data edge from every last writer of a variable the task reads.
    method AddReadDependencies(v: Vertex, task: Task)
      modifies `edges
      ensures forall e :: e in edges <==>
        || e in old(edges)
        || (e.target == v && e.source != v && e.kind == Variable
            && exists x :: x in task.readVariables && Recorded(task.lastWrites, x, e.source))
    {
      var todo := task.readVariables;
      var alreadyUsed: set<Vertex> := {};
      while todo != {}
        invariant todo <= task.readVariables
        invariant edges == old(edges) + EdgesInto(alreadyUsed, v, Variable)
        invariant forall w :: w in alreadyUsed ==>
          exists x :: x in task.readVariables && Recorded(task.lastWrites, x, w)
        invariant forall x, w :: x in task.readVariables - todo && Recorded(task.lastWrites, x, w) ==>
          w in alreadyUsed
        decreases todo
      {
        var x :| x in todo;
        todo := todo - {x};
        if x in task.lastWrites {
          var vertices := task.lastWrites[x];
          assert forall w :: w in vertices ==> Recorded(task.lastWrites, x, w);
          edges := edges + EdgesInto(vertices - alreadyUsed, v, Variable);
          alreadyUsed := alreadyUsed + vertices;
        }
      }
    }

    // One data edge from every last reader of a variable the task writes.
    method AddWriteDependencies(v: Vertex, task: Task)
      modifies `edges
      ensures forall e :: e in edges <==>
        || e in old(edges)
        || (e.target == v && e.source != v && e.kind == Variable
            && exists x :: x in task.writeVariables && Recorded(task.lastReads, x, e.source))
    {
      var todo := task.writeVariables;
      ghost var used: set<Vertex> := {};
      while todo != {}
        invariant todo <= task.writeVariables
        invariant edges == old(edges) + EdgesInto(used, v, Variable)
        invariant forall w :: w in used ==>
          exists x :: x in task.writeVariables && Recorded(task.lastReads, x, w)
        invariant forall x, w :: x in task.writeVariables - todo && Recorded(task.lastReads, x, w) ==>
          w in used
        decreases todo
      {
        var x :| x in todo;
        todo := todo - {x};
        if x in task.lastReads {
          var vertices := task.lastReads[x];
          assert forall w :: w in vertices ==> Recorded(task.lastReads, x, w);
          edges := edges + EdgesInto(vertices, v, Variable);
          used := used + vertices;
        }
      }
    }

    // A write hides what was recorded before; then the task's own reads count.
    method AddWritingVerticesToList(v: Vertex, task: Task)
      modifies task`lastWrites, task`lastReads
      ensures forall x, w :: Recorded(task.lastWrites, x, w) <==>
        if x in task.writeVariables then w == v else old(Recorded(task.lastWrites, x, w))
      ensures forall x, w :: Recorded(task.lastReads, x, w) <==>
        || (x in task.readVariables && w == v)
        || (x !in task.writeVariables && old(Recorded(task.lastReads, x, w)))
    {
      var todo := task.writeVariables;
      while todo != {}
        invariant todo <= task.writeVariables
        invariant forall x, w :: Recorded(task.lastWrites, x, w) <==>
          if x in task.writeVariables - todo then w == v else old(Recorded(task.lastWrites, x, w))
        invariant forall x, w :: Recorded(task.lastReads, x, w) <==>
          x !in task.writeVariables - todo && old(Recorded(task.lastReads, x, w))
        decreases todo
      {
        var x :| x in todo;
        todo := todo - {x};
        task.lastWrites := ClearVarWriteSet(x, task.lastWrites);
        task.lastReads := ClearVarWriteSet(x, task.lastReads);
        task.lastWrites := AddVectorToVarWriteSet(x, v, task.lastWrites);
      }
      ghost var writes := task.lastWrites;
      todo := task.readVariables;
      while todo != {}
        invariant todo <= task.readVariables
        invariant task.lastWrites == writes
        invariant forall x, w :: Recorded(task.lastReads, x, w) <==>
          || (x in task.readVariables - todo && w == v)
          || (x !in task.writeVariables && old(Recorded(task.lastReads, x, w)))
        decreases todo
      {
        var x :| x in todo;
        todo := todo - {x};
        task.lastReads := AddVectorToVarWriteSet(x, v, task.lastReads);
      }
    }

    // The union over in-edges is the meaning of "on entry to v".
    lemma EntryFacts(v: Vertex, nodes: seq<Node>, E: Edges)
      requires v < |vertex2task| && NodesOf(vertex2task) == nodes && InRange(E, |nodes|)
      requires Analysed(nodes[v].kind)
      requires forall u :: (u, v) in E ==> vertex2task[u].Carries(nodes, E, u)
      ensures forall x, w :: LastWriterAt(nodes, E, w, v, x) <==>
                exists u :: 0 <= u < |vertex2task| && (u, v) in E && Recorded(vertex2task[u].lastWrites, x, w)
      ensures forall x, w :: LastReaderAt(nodes, E, w, v, x) <==>
                exists u :: 0 <= u < |vertex2task| && (u, v) in E && Recorded(vertex2task[u].lastReads, x, w)
    {
      forall x, w
        ensures LastWriterAt(nodes, E, w, v, x) <==>
                exists u :: 0 <= u < |vertex2task| && (u, v) in E && Recorded(vertex2task[u].lastWrites, x, w)
      {
        LastWriterStep(nodes, E, w, v, x);
      }
      forall x, w
        ensures LastReaderAt(nodes, E, w, v, x) <==>
                exists u :: 0 <= u < |vertex2task| && (u, v) in E && Recorded(vertex2task[u].lastReads, x, w)
      {
        LastReaderStep(nodes, E, w, v, x);
      }
    }

    // The body of the analysis loop for one vertex.
    method AnalyseVertex(v: Vertex, task: Task, ghost nodes: seq<Node>, ghost E: Edges)
      requires Valid() && v < |vertex2task| && vertex2task[v] == task
      requires NodesOf(vertex2task) == nodes && InRange(E, |nodes|) && Acyclic(E)
      requires forall u :: (u, v) in Pairs(edges) <==> (u, v) in E
      requires task.Fresh(v)
      requires forall u :: (u, v) in E ==> vertex2task[u].Carries(nodes, E, u)
      modifies `edges, task`lastWrites, task`lastReads
      ensures task.Carries(nodes, E, v)
      ensures forall e :: e in edges <==>
        e in old(edges) || (e.target == v && e.kind == Variable && DataDependency(nodes, E, e.source, v))
    {
      if Analysed(task.taskType) {
        EntryFacts(v, nodes, E);
        forall x ensures !Arrives(nodes, E, v, v, x) {
          NoReturn(nodes, E, v, x);
        }
        if (v, v) in E {
          EdgeReaches(E, v, v);
        }
        CopyWritingAndReadingVerticesFromInEdges(v, task);
        assert forall x, w :: w != v ==> (Recorded(task.lastWrites, x, w) <==> LastWriterAt(nodes, E, w, v, x));
        assert forall x, w :: w != v ==> (Recorded(task.lastReads, x, w) <==> LastReaderAt(nodes, E, w, v, x));
        AddReadDependencies(v, task);
        AddWriteDependencies(v, task);
        AddWritingVerticesToList(v, task);
      } else {
        forall w: Vertex ensures !DataDependency(nodes, E, w, v) {
          if DataDependency(nodes, E, w, v) {
            DependencyInRange(nodes, E, w, v);
          }
        }
      }
    }

    // The vertices of `done` have been analysed and no others.
    ghost predicate Progress(done: set<Vertex>, nodes: seq<Node>, before: set<Edge>)
      reads this, vertex2task
    {
      && Valid() && NodesOf(vertex2task) == nodes
      && (forall v :: 0 <= v < |vertex2task| ==>
            if v in done then vertex2task[v].Carries(nodes, Pairs(before), v) else vertex2task[v].Fresh(v))
      && edges == before + AddedInto(done, nodes, Pairs(before))
    }

    method AnalyseNext(v: Vertex, task: Task, ghost done: set<Vertex>, ghost nodes: seq<Node>, ghost before: set<Edge>)
      requires v < |vertex2task| && vertex2task[v] == task && v !in done && Progress(done, nodes, before)
      requires Acyclic(Pairs(before)) && InRange(Pairs(before), |nodes|)
      requires forall u :: (u, v) in Pairs(before) ==> u in done
      modifies `edges, task`lastWrites, task`lastReads
      ensures vertex2task == old(vertex2task) && Progress(done + {v}, nodes, before)
    {
      hide *;
      ghost var ts, now := vertex2task, edges;
      ProgressIs(done, v, nodes, before);
      AddedInEdges(done, v, nodes, before, now);
      label before:
      AnalyseVertex(v, task, nodes, Pairs(before));
      AddedAll(done, v, nodes, before, now, edges);
      assert forall u :: 0 <= u < |ts| && u != v ==> unchanged@before(ts[u]);
      assert NodesOf(ts) == nodes;
      IsProgress(done + {v}, nodes, before);
    }

    lemma ProgressIs(done: set<Vertex>, v: Vertex, nodes: seq<Node>, before: set<Edge>)
      requires Progress(done, nodes, before) && InRange(Pairs(before), |nodes|) && v < |vertex2task|
      requires forall u :: (u, v) in Pairs(before) ==> u in done
      ensures Valid() && Distinct(vertex2task) && forall i :: 0 <= i < |vertex2task| ==> vertex2task[i].Valid()
      ensures NodesOf(vertex2task) == nodes && edges == before + AddedInto(done, nodes, Pairs(before))
      ensures forall u :: 0 <= u < |vertex2task| && u in done ==> vertex2task[u].Carries(nodes, Pairs(before), u)
      ensures forall u :: 0 <= u < |vertex2task| && u !in done ==> vertex2task[u].Fresh(u)
      ensures forall u :: (u, v) in Pairs(before) ==> u < |vertex2task| && vertex2task[u].Carries(nodes, Pairs(before), u)
      ensures forall u :: 0 <= u < |vertex2task| && u != v ==> vertex2task[u] != vertex2task[v]
    {
      hide Pairs, AddedInto, Task.Carries, Task.Fresh, Task.Valid;
      forall u | (u, v) in Pairs(before) ensures u < |vertex2task| {
        assert (u, v).0 < |nodes|;
      }
    }

    lemma IsProgress(done: set<Vertex>, nodes: seq<Node>, before: set<Edge>)
      requires Distinct(vertex2task) && InRange(Pairs(edges), |vertex2task|)
      requires forall i :: 0 <= i < |vertex2task| ==> vertex2task[i].Valid()
      requires NodesOf(vertex2task) == nodes && edges == before + AddedInto(done, nodes, Pairs(before))
      requires forall u :: 0 <= u < |vertex2task| && u in done ==> vertex2task[u].Carries(nodes, Pairs(before), u)
      requires forall u :: 0 <= u < |vertex2task| && u !in done ==> vertex2task[u].Fresh(u)
      ensures Progress(done, nodes, before)
    {
      hide Pairs, AddedInto, InRange, Distinct, Task.Carries, Task.Fresh, Task.Valid;
    }

    // The analysis loop, for any topological order of the vertices.
    method AnalyseInOrder(order: seq<Vertex>)
      requires Valid() && Acyclic(Pairs(edges))
      requires TopologicalOrder(Pairs(edges), |vertex2task|, order)
      requires forall i :: 0 <= i < |vertex2task| ==> vertex2task[i].Fresh(i)
      modifies `edges, (set t | t in vertex2task)`lastWrites, (set t | t in vertex2task)`lastReads
      ensures Valid() && vertex2task == old(vertex2task)
      ensures NodesOf(vertex2task) == old(NodesOf(vertex2task))
      ensures edges == old(edges) + Labelled(DataEdges(NodesOf(vertex2task), old(Pairs(edges))), Variable)
      ensures forall i :: 0 <= i < |vertex2task| ==>
                vertex2task[i].Carries(NodesOf(vertex2task), old(Pairs(edges)), i)
    {
      ghost var n, nodes, before := |order|, NodesOf(vertex2task), edges;
      assert edges == before + AddedInto({}, nodes, Pairs(before));
      assert Elements(order[..0]) == {};
      WholeOrder(Pairs(before), n, order);
      hide Pairs, AddedInto, Distinct, InRange, Acyclic, DataEdges, Labelled, TopologicalOrder, Elements;
      var i := 0;
      while i < |order|
        invariant 0 <= i <= n && vertex2task == old(vertex2task)
        invariant Progress(Elements(order[..i]), nodes, before)
      {
        NextInOrder(Pairs(before), n, order, i);
        AnalyseNext(order[i], vertex2task[order[i]], Elements(order[..i]), nodes, before);
        i := i + 1;
      }
      DataEdgesAll(Elements(order[..n]), nodes, Pairs(before));
    }

    // ------------------------------------------------------ the other passes

    method TransformConditionalStatesToConditions(variables: seq<string>)
      requires Valid()
      modifies (set t | t in vertex2task)`taskType, (set t | t in vertex2task)`name, (set t | t in vertex2task)`readVariables, (set t | t in vertex2task)`writeVariables
      ensures Valid()
      ensures NodesOf(vertex2task) == AfterTransform(old(NodesOf(vertex2task)), edges, Names(variables))
      ensures forall t :: t in vertex2task ==> t.taskType == XCondition || t.name == old(t.name)
    {
      hide InRange, Pairs, AfterTransform, OutEdges, Distinct, Names;
      ghost var nodes := NodesOf(vertex2task);
      var count, v := 0, 0;
      while v < |vertex2task|
        invariant 0 <= v <= |vertex2task| && Valid()
        invariant forall i :: 0 <= i < v ==>
          vertex2task[i].AsNode() == AfterTransform(nodes, edges, Names(variables))[i]
        invariant forall i :: v <= i < |vertex2task| ==> vertex2task[i].AsNode() == nodes[i]
        invariant forall t :: t in vertex2task ==> t.taskType == XCondition || t.name == old(t.name)
      {
        var task := vertex2task[v];
        OthersDiffer(v);
        if |OutEdges(edges, v)| > 1 && task.taskType == XState {
          MakeCondition(task, count, variables);
          count := count + 1;
        }
        v := v + 1;
      }
    }

    lemma OthersDiffer(v: Vertex)
      requires Distinct(vertex2task) && v < |vertex2task|
      ensures forall u :: 0 <= u < |vertex2task| && u != v ==> vertex2task[u] != vertex2task[v]
    {
    }

    static method MakeCondition(task: Task, count: nat, variables: seq<string>)
      requires task.Valid()
      modifies task`taskType, task`name, task`readVariables, task`writeVariables
      requires task.taskType == XState
      ensures task.Valid() && task.taskType == XCondition
      ensures task.readVariables == old(task.readVariables) + Names(variables)
      ensures task.writeVariables == old(task.writeVariables) + Names(variables)
    {
      task.taskType := XCondition;
      task.name := Decimal(count);
      var k := 0;
      while k < |variables|
        invariant 0 <= k <= |variables| && task.Valid() && task.taskType == XCondition
        invariant task.readVariables == old(task.readVariables) + Names(variables[..k])
        invariant task.writeVariables == old(task.writeVariables) + Names(variables[..k])
      {
        task.AddReadWriteVariable(variables[k]);
        assert variables[..k + 1] == variables[..k] + [variables[k]];
        k := k + 1;
      }
      assert variables[..k] == variables;
    }

    method MoveStart()
      requires Valid() && startTask in vertex2task
      modifies `startTask
      ensures Valid()
      ensures if old(startTask.taskType) != XState || OutEdges(edges, GetVertex(vertex2task, old(startTask))) == {}
              then startTask == old(startTask)
              else exists e :: e in OutEdges(edges, GetVertex(vertex2task, old(startTask)))
                               && e.target < |vertex2task| && startTask == vertex2task[e.target]
    {
      hide Distinct, InRange, Pairs, OutEdges, GetVertex;
      if startTask.taskType == XState {
        var v := GetVertex(vertex2task, startTask);
        var todo := OutEdges(edges, v);
        OutEdgesInRange(edges, |vertex2task|, v);
        ghost var first := true;
        while todo != {}
          invariant todo <= OutEdges(edges, v) && first == (todo == OutEdges(edges, v))
          invariant if first then startTask == old(startTask)
                    else exists e :: e in OutEdges(edges, v) && e.target < |vertex2task| && startTask == vertex2task[e.target]
          decreases todo
        {
          var e :| e in todo;
          startTask := vertex2task[e.target];
          todo := todo - {e};
          first := false;
        }
      }
    }

    // The start task moves from the start state to the function behind it.
    method ContractStateVertices()
      requires Valid() && Acyclic(Pairs(edges)) && startTask in vertex2task
      modifies `vertex2task, `edges, `startTask
      ensures Valid() && Acyclic(Pairs(edges))
      ensures var cs := IndicesOf(old(NodesOf(vertex2task)), XState);
              && vertex2task == Kept(old(vertex2task), Elements(cs))
              && edges == Contracted(old(edges), cs, State)
      ensures if old(startTask.taskType) != XState || OutEdges(old(edges), GetVertex(old(vertex2task), old(startTask))) == {}
              then startTask == old(startTask)
              else exists e :: e in OutEdges(old(edges), GetVertex(old(vertex2task), old(startTask)))
                               && e.target < |old(vertex2task)| && startTask == old(vertex2task)[e.target]
    {
      hide *;
      MoveStart();
      ContractVertices(XState, State);
    }

    method AddVertex(t: Task) returns (v: Vertex)
      modifies `vertex2task
      ensures v == |old(vertex2task)| && vertex2task == old(vertex2task) + [t]
    {
      v := |vertex2task|;
      vertex2task := vertex2task + [t];
    }

    // The start task makes the first write of every variable.
    static method NewStartTask(agentName: string, initVertex: Vertex, variables: seq<string>) returns (initTask: Task)
      ensures fresh(initTask) && initTask.Valid() && initTask.Fresh(initVertex)
      ensures initTask.AsNode() == Node(StartAgent, {}, Names(variables))
    {
      initTask := new Task(agentName, agentName, StartAgent);
      var k := 0;
      while k < |variables|
        invariant 0 <= k <= |variables| && initTask.Valid() && initTask.taskType == StartAgent
        invariant initTask.readVariables == {} && initTask.writeVariables == Names(variables[..k])
        invariant initTask.Fresh(initVertex)
      {
        var x := variables[k];
        initTask.AddWriteVariable(x);
        initTask.lastWrites := AddVectorToVarWriteSet(x, initVertex, initTask.lastWrites);
        initTask.lastReads := AddVectorToVarWriteSet(x, initVertex, initTask.lastReads);
        assert variables[..k + 1] == variables[..k] + [x];
        k := k + 1;
      }
      assert variables[..k] == variables;
    }

    method AddStartTask(variables: seq<string>) returns (initTask: Task)
      requires Valid() && startTask in vertex2task
      modifies `vertex2task, `edges
      ensures Valid() && fresh(initTask) && vertex2task == old(vertex2task) + [initTask]
      ensures edges == old(edges) + StartEdges(old(vertex2task), startTask, |old(vertex2task)|)
      ensures initTask.AsNode() == Node(StartAgent, {}, Names(variables))
      ensures initTask.Fresh(|old(vertex2task)|)
    {
      var n := |vertex2task|;
      initTask := NewStartTask(agentName, n, variables);
      var start := GetVertex(vertex2task, startTask);
      var initVertex := AddVertex(initTask);
      edges := edges + {Edge(initVertex, start, Init)};
      assert {Edge(initVertex, start, Init)} == StartEdges(old(vertex2task), startTask, n);
      PairsUnion(old(edges), {Edge(initVertex, start, Init)});
    }

    // The end task collects the last writes of the functions that end a run.
    method AddEndTask()
      requires Valid() && forall t :: t in endTasks ==> t in vertex2task
      modifies `vertex2task, `edges, `endTask
      ensures Valid() && fresh(endTask) && vertex2task == old(vertex2task) + [endTask]
      ensures edges == old(edges) + EndEdges(old(vertex2task), endTasks, |old(vertex2task)|)
      ensures endTask.AsNode() == Node(FinishAgent, {}, {}) && endTask.Fresh(|old(vertex2task)|)
    {
      var task := new Task(agentName, agentName, FinishAgent);
      ghost var ts, es := vertex2task, edges;
      var v := AddVertex(task);
      LinkEnds(ts, v);
      endTask := task;
      EndAdded(ts, es, v);
    }

    // The end functions lead to the end task, at v.
    method LinkEnds(ghost ts: seq<Task>, v: Vertex)
      requires ts <= vertex2task && Distinct(vertex2task) && forall t :: t in endTasks ==> t in ts
      modifies `edges
      ensures edges == old(edges) + EndEdges(ts, endTasks, v)
    {
      hide EndEdges;
      NoEnds(ts, v);
      ghost var linked: set<Task> := {};
      var todo := endTasks;
      while todo != {}
        invariant todo <= endTasks && linked == endTasks - todo
        invariant edges == old(edges) + EndEdges(ts, linked, v)
        decreases todo
      {
        var t :| t in todo;
        var u := GetVertex(vertex2task, t);
        edges := edges + {Edge(u, v, Init)};
        SameVertex(ts, t, u);
        EndEdgesStep(ts, linked, u, v);
        todo := todo - {t};
        linked := linked + {t};
      }
      assert linked == endTasks;
    }

    lemma SameVertex(ts: seq<Task>, t: Task, u: Vertex)
      requires ts <= vertex2task && Distinct(vertex2task) && t in ts && u < |vertex2task| && vertex2task[u] == t
      ensures Distinct(ts) && u < |ts| && ts[u] == t
    {
      var i :| 0 <= i < |ts| && ts[i] == t;
      assert vertex2task[i] == t;
    }

    lemma NoEnds(ts: seq<Task>, v: Vertex)
      ensures EndEdges(ts, {}, v) == {}
    {
    }

    lemma EndAdded(ts: seq<Task>, es: set<Edge>, v: Vertex)
      requires Distinct(ts) && InRange(Pairs(es), |ts|) && forall i :: 0 <= i < |ts| ==> ts[i].Valid()
      requires v == |ts| && |vertex2task| == v + 1 && vertex2task[..v] == ts && vertex2task[v] !in ts && vertex2task[v].Valid()
      requires edges == es + EndEdges(ts, endTasks, v)
      ensures Valid()
    {
      PairsUnion(es, EndEdges(ts, endTasks, v));
    }

    method RemoveStateDependencies()
      requires Valid()
      modifies `edges
      ensures Valid() && edges == WithoutStates(old(edges))
    {
      RemovedInRange(edges, vertex2task);
      var edgesToRemove := set e | e in edges && e.kind == State;
      edges := edges - edgesToRemove;
    }

    method AddStartAndEndTask(variables: seq<string>)
      requires Valid() && Acyclic(Pairs(edges))
      requires startTask in vertex2task && forall t :: t in endTasks ==> t in vertex2task
      requires forall i :: 0 <= i < |vertex2task| ==> vertex2task[i].Fresh(i)
      modifies `vertex2task, `edges, `endTask
      ensures Valid() && endTask != null && fresh(endTask) && |vertex2task| == |old(vertex2task)| + 2
      ensures old(vertex2task) == vertex2task[..|old(vertex2task)|] && vertex2task[|old(vertex2task)| + 1] == endTask
      ensures NodesOf(vertex2task) == WithEnds(old(NodesOf(vertex2task)), Names(variables))
      ensures edges == WithEndEdges(old(edges), old(vertex2task), startTask, endTasks)
      ensures Acyclic(Pairs(edges)) && endTask !in old(vertex2task)
      ensures forall t :: t in vertex2task ==> t in old(vertex2task) || fresh(t)
      ensures forall i :: 0 <= i < |vertex2task| ==> vertex2task[i].Fresh(i)
    {
      hide Pairs, StartEdges, EndEdges, Acyclic, InRange, Distinct;
      ghost var ts := vertex2task;
      var initTask := AddStartTask(variables);
      AddEndTask();
      WithEndsStages(ts, initTask, endTasks, |ts| + 1);
      WithEndsAcyclic(old(edges), ts, startTask, endTasks);
      WithEndsNodes(ts, initTask, endTask, Names(variables));
      assert NodesOf(ts) == old(NodesOf(vertex2task));
      assert vertex2task == ts + [initTask] + [endTask] && vertex2task[..|ts|] == ts;
      forall i | 0 <= i < |vertex2task| ensures vertex2task[i].Fresh(i) {
        if i < |ts| { assert vertex2task[i] == ts[i]; }
      }
    }

    method AddDataDependencies(variables: seq<string>, sort: Sorter)
      requires Valid() && Acyclic(Pairs(edges)) && SortsTopologically(sort)
      requires startTask in vertex2task && forall t :: t in endTasks ==> t in vertex2task
      requires forall i :: 0 <= i < |vertex2task| ==> vertex2task[i].Fresh(i)
      modifies `vertex2task, `edges, `endTask, (set t | t in vertex2task)`lastWrites, (set t | t in vertex2task)`lastReads
      ensures Valid() && endTask != null && fresh(endTask) && |vertex2task| == |old(vertex2task)| + 2
      ensures old(vertex2task) == vertex2task[..|old(vertex2task)|] && vertex2task[|old(vertex2task)| + 1] == endTask
      ensures NodesOf(vertex2task) == WithEnds(old(NodesOf(vertex2task)), Names(variables))
      ensures edges == WithDataEdges(NodesOf(vertex2task), WithEndEdges(old(edges), old(vertex2task), startTask, endTasks))
      ensures endTask.Carries(NodesOf(vertex2task), Pairs(WithEndEdges(old(edges), old(vertex2task), startTask, endTasks)), |vertex2task| - 1)
      ensures forall t :: t in vertex2task ==> t in old(vertex2task) || fresh(t)
    {
      hide Pairs, DataEdges, Labelled, WithEnds, WithEndEdges, Acyclic, InRange, Distinct, SortsTopologically, TopologicalOrder, Task.Carries, Task.Fresh;
      AddStartAndEndTask(variables);
      Sorted(sort, |vertex2task|, Pairs(edges));
      var order := sort(|vertex2task|, Pairs(edges));
      AnalyseInOrder(order);
    }

    lemma Sorted(sort: Sorter, n: nat, E: Edges)
      requires SortsTopologically(sort) && InRange(E, n) && Acyclic(E)
      ensures TopologicalOrder(E, n, sort(n, E))
    {
      hide InRange, Acyclic, TopologicalOrder;
    }

    // One output task for every class of variables with the same last writers;
    // then the end task has done its duty.
    method AddVariableOutput() returns (ghost outs: seq<Task>, ghost groups: seq<set<string>>)
      requires Valid() && endTask != null && endTask in vertex2task
      modifies `vertex2task, `edges, endTask`lastWrites
      ensures PartitionsByWriters(old(endTask.lastWrites), groups)
      ensures WriteGroups(outs, groups) && forall t :: t in outs ==> t !in old(vertex2task) && fresh(t)
      ensures ghost var end := GetVertex(old(vertex2task), endTask);
              && vertex2task == Without(old(vertex2task) + outs, end)
              && edges == WithoutVertex(old(edges) + OutputEdges(old(endTask.lastWrites), groups, |old(vertex2task)|), end)
    {
      hide OutputEdges, WithoutVertex, Pairs, InRange, PartitionsRest, PartitionsByWriters;
      outs, groups := [], [];
      PartitionStart(endTask.lastWrites);
      NoOutputEdges(endTask.lastWrites, |vertex2task|);
      ghost var L, ts, es := endTask.lastWrites, vertex2task, edges;
      while endTask.lastWrites != map[]
        invariant OutputProgress(L, ts, es, outs, groups) && endTask == old(endTask)
        invariant forall t :: t in outs ==> t !in ts && fresh(t)
        decreases endTask.lastWrites.Keys
      {
        outs, groups := AddOutputOfClass(L, ts, es, outs, groups);
      }
      PartitionDone(L, groups);
      RemoveVertex(GetVertex(vertex2task, endTask));
    }

    // The tasks `outs` write the groups found so far.
    ghost predicate OutputProgress(L: VarMap, ts: seq<Task>, es: set<Edge>, outs: seq<Task>, groups: seq<set<string>>)
      reads this, endTask, outs
    {
      && endTask != null && PartitionsRest(L, endTask.lastWrites, groups)
      && endTask !in outs && WriteGroups(outs, groups) && vertex2task == ts + outs
      && edges == es + OutputEdges(L, groups, |ts|)
    }

    method AddOutputOfClass(ghost L: VarMap, ghost ts: seq<Task>, ghost es: set<Edge>,
                            ghost outs: seq<Task>, ghost groups: seq<set<string>>)
      returns (ghost outs': seq<Task>, ghost groups': seq<set<string>>)
      requires OutputProgress(L, ts, es, outs, groups) && endTask.lastWrites != map[]
      modifies `vertex2task, `edges, endTask`lastWrites
      ensures OutputProgress(L, ts, es, outs', groups') && endTask == old(endTask)
      ensures endTask.lastWrites.Keys < old(endTask.lastWrites.Keys)
      ensures |outs'| == |outs| + 1 && outs'[..|outs|] == outs && fresh(outs'[|outs|])
    {
      hide OutputEdges, EdgesFrom, PartitionsRest, WriteGroups;
      var lws := endTask.lastWrites;
      var x :| x in lws;
      var same := SameWriters(lws, x);
      ClassComplete(L, lws, groups, x);
      PartitionStep(L, lws, groups, x);
      var task := AddOutputTask(x, same, lws[x]);
      endTask.lastWrites := lws - same;
      assert x in same && x !in endTask.lastWrites;
      outs', groups' := outs + [task], groups + [same];
      assert WriteGroups(outs, groups);
      WriteGroupsStep(outs, groups, task, same);
      OutputEdgesStep(L, groups, x, |ts|);
      assert vertex2task == ts + outs';
      UnionAssociates(es, OutputEdges(L, groups, |ts|), EdgesFrom(lws[x], |ts| + |groups|));
      assert PartitionsRest(L, endTask.lastWrites, groups');
    }

    method AddOutputTask(x: string, same: set<string>, writers: set<Vertex>) returns (task: Task)
      modifies `vertex2task, `edges
      ensures fresh(task) && task.Valid() && task.AsNode() == Node(IoPopWrite, {}, same)
      ensures vertex2task == old(vertex2task) + [task]
      ensures edges == old(edges) + EdgesFrom(writers, |old(vertex2task)|)
    {
      task := new Task(agentName, x, IoPopWrite);
      var vertex := AddVertex(task);
      task.writeVariables := same;
      edges := edges + EdgesFrom(writers, vertex);
    }

    method RemoveRedundantDependencies(reduce: Reducer)
      requires Valid() && Acyclic(Pairs(edges)) && ReducesTransitively(reduce)
      modifies `vertex2task, `edges
      ensures Valid()
      ensures ghost var to := reduce(|vertex2task|, old(Pairs(edges))).0;
              && |vertex2task| == |old(vertex2task)|
              && IsTransitiveReduction(|vertex2task|, old(Pairs(edges)), to, Pairs(edges))
              && forall i :: 0 <= i < |vertex2task| ==> vertex2task[to[i]] == old(vertex2task)[i]
      ensures forall t :: t in vertex2task ==> t in old(vertex2task)
    {
      var n := |vertex2task|;
      var (to, reduced) := reduce(n, Pairs(edges));
      assert IsTransitiveReduction(n, Pairs(edges), to, reduced);
      var trvertex2task := vertex2task;
      var i := 0;
      while i < n
        invariant 0 <= i <= n && |trvertex2task| == n
        invariant forall j :: 0 <= j < i ==> trvertex2task[to[j]] == vertex2task[j]
      {
        trvertex2task := trvertex2task[to[i] := vertex2task[i]];
        i := i + 1;
      }
      vertex2task := trvertex2task;
      edges := Labelled(reduced, Unlabelled);
      PairsLabelled(reduced, Unlabelled);
      PermutedDistinct(old(vertex2task), vertex2task, to);
      forall i | 0 <= i < |vertex2task| ensures vertex2task[i].Valid() {
        assert vertex2task[i] in old(vertex2task);
      }
    }

    // --------------------------------------------------------- the whole run

    // The state graph has been built and nothing analysed yet.
    ghost predicate ReadyToGenerate()
      reads this, vertex2task
    {
      && Valid() && IsStateGraph(NodesOf(vertex2task), edges)
      && startTask in vertex2task && startTask.taskType == XState
      && OutEdges(edges, GetVertex(vertex2task, startTask)) != {}
      && (forall t :: t in endTasks ==> t in vertex2task && t.taskType == XFunction)
      && (forall t :: t in vertex2task ==> t.Blank())
    }

    // What holds between the two: branching states have become conditions.
    ghost predicate Transformed(ts: seq<Task>, nodes0: seq<Node>, variables: set<string>, start: Vertex)
      reads this, vertex2task
    {
      && Valid() && vertex2task == ts && IsStateGraph(nodes0, edges)
      && NodesOf(ts) == AfterTransform(nodes0, edges, variables)
      && start < |ts| && ts[start] == startTask && nodes0[start].kind == XState && OutEdges(edges, start) != {}
      && (forall t :: t in ts ==> t.Blank())
    }

    method TransformStates(variables: seq<string>) returns (ghost start: Vertex)
      requires ReadyToGenerate()
      modifies (set t | t in vertex2task)`taskType, (set t | t in vertex2task)`name, (set t | t in vertex2task)`readVariables, (set t | t in vertex2task)`writeVariables
      ensures start == GetVertex(vertex2task, startTask)
      ensures Transformed(vertex2task, old(NodesOf(vertex2task)), Names(variables), start) && vertex2task == old(vertex2task)
      ensures forall t :: t in old(vertex2task) ==> t.taskType == XCondition || t.name == old(t.name)
    {
      start := GetVertex(vertex2task, startTask);
      ghost var nodes0 := NodesOf(vertex2task);
      assert nodes0[start] == startTask.AsNode();
      hide Pairs, IsStateGraph, AfterTransform, InRange, Acyclic, Distinct;
      TransformConditionalStatesToConditions(variables);
    }

    method ContractTransformed(ghost ts: seq<Task>, ghost nodes0: seq<Node>, ghost variables: set<string>, ghost start: Vertex)
      requires Transformed(ts, nodes0, variables, start)
      modifies `vertex2task, `edges, `startTask
      ensures Valid() && Acyclic(Pairs(edges)) && startTask in vertex2task
      ensures ghost var cs := IndicesOf(AfterTransform(nodes0, old(edges), variables), XState);
              && vertex2task == Kept(ts, Elements(cs))
              && edges == Contracted(old(edges), cs, State)
      ensures StartMoved(ts, AfterTransform(nodes0, old(edges), variables), old(edges), start, startTask)
    {
      ghost var es := edges;
      assert GetVertex(ts, startTask) == start;
      assert startTask.AsNode() == AfterTransform(nodes0, es, variables)[start];
      hide Pairs, Contracted, AfterTransform, Acyclic, IndicesOf, Kept, OutEdges, Distinct;
      ContractStateVertices();
      StartSurvives(ts, nodes0, es, variables, start, startTask);
    }

    // Conditions in place of branching states, then no states at all.
    method ContractStates(variables: seq<string>)
      requires ReadyToGenerate()
      modifies this
      modifies (set t | t in vertex2task)`taskType, (set t | t in vertex2task)`name, (set t | t in vertex2task)`readVariables, (set t | t in vertex2task)`writeVariables
      ensures Valid() && Acyclic(Pairs(edges)) && startTask in vertex2task && endTasks == old(endTasks)
      ensures forall t :: t in vertex2task ==> t in old(vertex2task) && t.Blank()
      ensures forall t :: t in old(vertex2task) ==> t.taskType == XCondition || t.name == old(t.name)
      ensures forall t :: t in endTasks ==> t in vertex2task
      ensures ghost var nodes := AfterTransform(old(NodesOf(vertex2task)), old(edges), Names(variables));
              && IsContraction(old(vertex2task), nodes, old(edges), vertex2task, NodesOf(vertex2task), edges)
              && EndsAmong(old(vertex2task), nodes, endTasks)
              && StartMoved(old(vertex2task), nodes, old(edges), old(GetVertex(vertex2task, startTask)), startTask)
    {
      hide Pairs, InRange, Acyclic, AfterTransform, IsStateGraph, Kept, Elements, IndicesOf, IsContraction, EndsAmong, OutEdges;
      ghost var ts, nodes0 := vertex2task, NodesOf(vertex2task);
      EndTasksSurvive(ts, nodes0, edges, Names(variables), endTasks);
      ghost var start := TransformStates(variables);
      ghost var nodes := NodesOf(ts);
      WritersReadTheirs(ts);
      ghost var cs := IndicesOf(nodes, XState);
      KeptDistinct(ts, Elements(cs));
      assert nodes == AfterTransform(nodes0, edges, Names(variables));
      assert forall t :: t in ts ==> t.Blank();
      hide *;
      ContractTransformed(ts, nodes0, Names(variables), start);
      assert NodesOf(ts) == nodes;
      NodesOfKept(ts, Elements(cs));
      IsContractionHolds(ts, nodes, old(edges), vertex2task, edges);
    }

    method AddDependenciesAndOutputs(variables: seq<string>, sort: Sorter)
      returns (ghost ts3: seq<Task>, ghost nodes3: seq<Node>, ghost L: VarMap,
               ghost outs: seq<Task>, ghost groups: seq<set<string>>)
      requires Valid() && Acyclic(Pairs(edges)) && SortsTopologically(sort)
      requires startTask in vertex2task && forall t :: t in endTasks ==> t in vertex2task
      requires forall t :: t in vertex2task ==> t.Blank()
      modifies `vertex2task, `edges, `endTask, (set t | t in vertex2task)`lastWrites, (set t | t in vertex2task)`lastReads
      ensures IsAnalysis(old(vertex2task), old(NodesOf(vertex2task)), old(edges), Names(variables), startTask, endTasks,
                         ts3, nodes3, L, outs, groups, vertex2task, edges)
      ensures WriteGroups(outs, groups) && AllValid(vertex2task) && NodesOf(ts3) == nodes3
      ensures forall t :: t in vertex2task ==> t in old(vertex2task) || fresh(t)
    {
      ghost var ts2, es2, nodes2 := vertex2task, edges, NodesOf(vertex2task);
      hide *;
      nodes3 := AnalyseToEnd(variables, sort);
      ts3, L := vertex2task, endTask.lastWrites;
      outs, groups := FinishOutput(ts3);
      IsAnalysisHolds(ts2, nodes2, es2, Names(variables), startTask, endTasks, ts3, nodes3, L, outs, groups, vertex2task, edges);
    }

    // The analysis, up to what the end task has recorded.
    method AnalyseToEnd(variables: seq<string>, sort: Sorter) returns (ghost nodes3: seq<Node>)
      requires Valid() && Acyclic(Pairs(edges)) && SortsTopologically(sort)
      requires startTask in vertex2task && forall t :: t in endTasks ==> t in vertex2task
      requires forall t :: t in vertex2task ==> t.Blank()
      modifies `vertex2task, `edges, `endTask, (set t | t in vertex2task)`lastWrites, (set t | t in vertex2task)`lastReads
      ensures Valid() && endTask != null && fresh(endTask) && endTask in vertex2task && NodesOf(vertex2task) == nodes3
      ensures ghost var ts2, n := old(vertex2task), |old(vertex2task)|;
              && |vertex2task| == n + 2 && vertex2task[..n] == ts2 && GetVertex(vertex2task, endTask) == n + 1
              && nodes3 == WithEnds(old(NodesOf(vertex2task)), Names(variables))
              && edges == WithDataEdges(nodes3, WithEndEdges(old(edges), ts2, startTask, endTasks))
      ensures forall t :: t in vertex2task ==> t in old(vertex2task) || fresh(t)
      ensures ghost var es3 := WithEndEdges(old(edges), old(vertex2task), startTask, endTasks);
              forall x, w :: Recorded(endTask.lastWrites, x, w) <==>
                             LastWriterAt(nodes3, Pairs(es3), w, |old(vertex2task)| + 1, x)
    {
      hide Pairs, InRange, Acyclic, WithEndEdges, WithDataEdges, SortsTopologically, Recorded, LastWriterAt;
      ghost var ts2, es2 := vertex2task, edges;
      forall i | 0 <= i < |vertex2task| ensures vertex2task[i].Fresh(i) {
        assert vertex2task[i].Blank();
      }
      AddDataDependencies(variables, sort);
      nodes3 := NodesOf(vertex2task);
      EndFacts(endTask, nodes3, Pairs(WithEndEdges(es2, ts2, startTask, endTasks)), |ts2| + 1);
    }

    // The program order goes, the output tasks come, the end task goes.
    method FinishOutput(ghost ts3: seq<Task>) returns (ghost outs: seq<Task>, ghost groups: seq<set<string>>)
      requires Valid() && vertex2task == ts3 && endTask != null && endTask in vertex2task
      modifies `vertex2task, `edges, endTask`lastWrites
      ensures PartitionsByWriters(old(endTask.lastWrites), groups) && WriteGroups(outs, groups) && |outs| == |groups|
      ensures forall t :: t in vertex2task ==> t in ts3 || fresh(t)
      ensures NodesOf(ts3) == old(NodesOf(ts3))
      ensures ghost var end := GetVertex(ts3, endTask);
              && vertex2task == Without(ts3 + outs, end) && AllValid(vertex2task)
              && edges == WithoutVertex(WithoutStates(old(edges)) + OutputEdges(old(endTask.lastWrites), groups, |ts3|), end)
    {
      hide *;
      ghost var end := GetVertex(ts3, endTask);
      RemoveStateDependencies();
      EachValid(this);
      ghost var nodes := NodesOf(ts3);
      outs, groups := AddVariableOutput();
      assert NodesOf(ts3) == nodes;
      AllAreValid(ts3);
      GroupsCounted(outs, groups);
      JoinedValid(ts3, outs, groups, end);
      AmongBoth(ts3, outs, end);
    }

    // The passes up to the reduction, one after the other.
    method RunPasses(variables: seq<string>, sort: Sorter)
      returns (ghost ts2: seq<Task>, ghost nodes2: seq<Node>, ghost es2: set<Edge>, ghost start: Task?, ghost ends: set<Task>,
               ghost ts3: seq<Task>, ghost nodes3: seq<Node>, ghost L: VarMap, ghost outs: seq<Task>, ghost groups: seq<set<string>>)
      requires ReadyToGenerate() && SortsTopologically(sort)
      modifies this
      modifies (set t | t in vertex2task)`taskType, (set t | t in vertex2task)`name, (set t | t in vertex2task)`readVariables, (set t | t in vertex2task)`writeVariables
      modifies (set t | t in vertex2task)`lastWrites, (set t | t in vertex2task)`lastReads
      ensures ghost var nodes := AfterTransform(old(NodesOf(vertex2task)), old(edges), Names(variables));
              && IsContraction(old(vertex2task), nodes, old(edges), ts2, nodes2, es2) && EndsAmong(old(vertex2task), nodes, ends)
              && ends == old(endTasks) && StartMoved(old(vertex2task), nodes, old(edges), old(GetVertex(vertex2task, startTask)), start)
      ensures IsAnalysis(ts2, nodes2, es2, Names(variables), start, ends, ts3, nodes3, L, outs, groups, vertex2task, edges)
      ensures WriteGroups(outs, groups) && AllValid(vertex2task) && NodesOf(ts3) == nodes3
      ensures forall t :: t in old(vertex2task) ==> t.taskType == XCondition || t.name == old(t.name)
      ensures forall t :: t in vertex2task ==> t in old(vertex2task) || fresh(t)
    {
      hide *;
      ContractStates(variables);
      ts2, nodes2, es2, start, ends := vertex2task, NodesOf(vertex2task), edges, startTask, endTasks;
      ts3, nodes3, L, outs, groups := AddDependenciesAndOutputs(variables, sort);
    }

    // Everything but the reduction.  The ghost result records the stages.
    method BuildDependencies(variables: seq<string>, sort: Sorter) returns (ghost c: Compilation)
      requires ReadyToGenerate() && SortsTopologically(sort)
      modifies this
      modifies (set t | t in vertex2task)`taskType, (set t | t in vertex2task)`name, (set t | t in vertex2task)`readVariables, (set t | t in vertex2task)`writeVariables
      modifies (set t | t in vertex2task)`lastWrites, (set t | t in vertex2task)`lastReads
      ensures c.Valid() && WriteGroups(c.outs, c.groups) && NodesOf(c.ts3) == c.nodes3
      ensures c.ts0 == old(vertex2task) && c.es0 == old(edges) && c.endTasks == old(endTasks) && c.variables == Names(variables)
      ensures c.nodes0 == AfterTransform(old(NodesOf(vertex2task)), old(edges), Names(variables))
      ensures StartMoved(c.ts0, c.nodes0, c.es0, old(GetVertex(vertex2task, startTask)), c.startTask)
      ensures c.ts6 == vertex2task && c.es6 == edges
      ensures forall t :: t in old(vertex2task) ==> t.taskType == XCondition || t.name == old(t.name)
      ensures forall t :: t in vertex2task ==> t in old(vertex2task) || fresh(t)
      ensures Valid() && Acyclic(Pairs(edges))
    {
      hide *;
      StartsAsStateGraph(this);
      ghost var ts0, es0, nodes, vars := vertex2task, edges, NodesOf(vertex2task), Names(variables);
      ghost var ts2, nodes2, es2, start, ends, ts3, nodes3, L, outs, groups := RunPasses(variables, sort);
      c := Compilation(vars, start, ends, ts0, AfterTransform(nodes, es0, vars), es0, ts3, nodes3,
                       WithEndEdges(es2, ts2, start, ends), L, outs, groups, vertex2task, edges);
      Assemble(c, nodes, ts2, nodes2, es2);
      ValidGraph(this);
    }

    // The dependency graph of one agent.
    method GenerateDependencyGraph(variables: seq<string>, sort: Sorter, reduce: Reducer) returns (ghost c: Compilation)
      requires ReadyToGenerate() && SortsTopologically(sort) && ReducesTransitively(reduce)
      modifies this
      modifies (set t | t in vertex2task)`taskType, (set t | t in vertex2task)`name, (set t | t in vertex2task)`readVariables, (set t | t in vertex2task)`writeVariables
      modifies (set t | t in vertex2task)`lastWrites, (set t | t in vertex2task)`lastReads
      ensures c.Valid() && c.ts0 == old(vertex2task) && c.es0 == old(edges)
      ensures c.endTasks == old(endTasks) && c.variables == Names(variables)
      ensures c.nodes0 == AfterTransform(old(NodesOf(vertex2task)), old(edges), Names(variables))
      ensures StartMoved(c.ts0, c.nodes0, c.es0, old(GetVertex(vertex2task, startTask)), c.startTask)
      ensures Valid() && Acyclic(Pairs(edges)) && WriteGroups(c.outs, c.groups)
      ensures NodesOf(c.ts3) == c.nodes3 && IsReduced(c, vertex2task, Pairs(edges))
      ensures KeepsConflicts(c, vertex2task, Pairs(edges))
      ensures OutputsAfterWriters(c, vertex2task, Pairs(edges))
      ensures KeepsMessageEdges(c, vertex2task, Pairs(edges))
      ensures forall t :: t in old(vertex2task) ==> t.taskType == XCondition || t.name == old(t.name)
      ensures forall t :: t in vertex2task ==> t in old(vertex2task) || fresh(t)
    {
      hide *;
      c := BuildDependencies(variables, sort);
      RemoveRedundantDependencies(reduce);
      CompilationKeepsPromises(c, reduce(|c.ts6|, Pairs(c.es6)).0, Pairs(edges), vertex2task);
      ReducedIs(c, reduce(|c.ts6|, Pairs(c.es6)).0, vertex2task, Pairs(edges));
    }
  }

  lemma EachValid(g: XGraph)
    requires g.Valid()
    ensures Distinct(g.vertex2task) && forall i :: 0 <= i < |g.vertex2task| ==> g.vertex2task[i].Valid()
  {
    hide Distinct, InRange, Task.Valid;
  }

  lemma AllAreValid(ts: seq<Task>)
    requires Distinct(ts) && forall i :: 0 <= i < |ts| ==> ts[i].Valid()
    ensures AllValid(ts)
  {
    hide Distinct, Task.Valid;
  }

  lemma GroupsCounted(outs: seq<Task>, groups: seq<set<string>>)
    requires WriteGroups(outs, groups)
    ensures |outs| == |groups|
  {
  }

  lemma ValidTasks(g: XGraph)
    requires g.Valid()
    ensures AllValid(g.vertex2task)
  {
  }

  lemma ValidGraph(g: XGraph)
    requires AllValid(g.vertex2task)
    requires InRange(Pairs(g.edges), |g.vertex2task|)
    ensures g.Valid()
  {
  }

  lemma AmongBoth(ts: seq<Task>, outs: seq<Task>, end: Vertex)
    requires end < |ts| + |outs|
    ensures forall t :: t in Without(ts + outs, end) ==> t in ts || t in outs
  {
  }

  lemma StartsAsStateGraph(g: XGraph)
    requires g.ReadyToGenerate()
    ensures Distinct(g.vertex2task) && IsStateGraph(NodesOf(g.vertex2task), g.edges)
  {
    hide Distinct, IsStateGraph;
  }
}
