/** Tasks of the dependency compiler: the variables they access and, during the
    analysis, the tasks that last wrote and last read each variable. */
module Tasks {
  import opened Digraph
  import opened DataFlow

  type VarMap = map<string, set<Vertex>>

  // Vertex w is recorded in m for variable x.
  predicate Recorded(m: VarMap, x: string, w: Vertex) {
    x in m && w in m[x]
  }

  // Empties the set of variable x, if there is one.
  function ClearVarWriteSet(x: string, m: VarMap): (r: VarMap)
    ensures r.Keys == m.Keys
    ensures forall y, w :: Recorded(r, y, w) <==> y != x && Recorded(m, y, w)
  {
    if x in m then m[x := {}] else m
  }

  // Adds vertex v to the set of variable x, making that set if need be.
  function AddVectorToVarWriteSet(x: string, v: Vertex, m: VarMap): (r: VarMap)
    ensures r.Keys == m.Keys + {x}
    ensures forall y, w :: Recorded(r, y, w) <==> Recorded(m, y, w) || (y == x && w == v)
  {
    m[x := (if x in m then m[x] else {}) + {v}]
  }

  // Adds every set of one map to the set of the same variable in another.
  method CopyVarWriteSets(from: VarMap, into: VarMap) returns (r: VarMap)
    ensures r.Keys == from.Keys + into.Keys
    ensures forall x, w :: Recorded(r, x, w) <==> Recorded(from, x, w) || Recorded(into, x, w)
  {
    r := into;
    var todo := from.Keys;
    while todo != {}
      invariant todo <= from.Keys
      invariant r.Keys == into.Keys + (from.Keys - todo)
      invariant forall x, w :: Recorded(r, x, w) <==>
                               (x !in todo && Recorded(from, x, w)) || Recorded(into, x, w)
      decreases todo
    {
      var x :| x in todo;
      r := r[x := (if x in r then r[x] else {}) + from[x]];
      todo := todo - {x};
    }
  }

  class Task {
    const parentName: string
    var name: string
    var taskType: TaskType
    var readOnlyVariables: set<string>
    var readVariables: set<string>
    var writeVariables: set<string>
    var lastWrites: VarMap
    var lastReads: VarMap
    var hasCondition: bool

    // Every variable a task may write it may also read; start tasks and output
    // tasks only write.
    ghost predicate Valid()
      reads `taskType, `readOnlyVariables, `readVariables, `writeVariables
    {
      && readOnlyVariables <= readVariables
      && (taskType.StartAgent? || taskType.IoPopWrite? || writeVariables <= readVariables)
    }

    ghost function AsNode(): Node
      reads `taskType, `readVariables, `writeVariables
    {
      Node(taskType, readVariables, writeVariables)
    }

    // No facts recorded yet, except a start task's own claim to its writes.
    ghost predicate Fresh(v: Vertex)
      reads this
    {
      && (forall x, w :: Recorded(lastWrites, x, w) || Recorded(lastReads, x, w) ==>
                         taskType.StartAgent? && x in writeVariables && w == v)
    }

    ghost predicate Blank()
      reads `lastWrites, `lastReads
    {
      forall x, w :: !Recorded(lastWrites, x, w) && !Recorded(lastReads, x, w)
    }

    // The facts that hold once v has run; nothing flows through other vertices.
    ghost predicate Carries(nodes: seq<Node>, E: Edges, v: Vertex)
      reads this
    {
      && (forall x, w :: Recorded(lastWrites, x, w) <==>
                         Analysed(taskType) && LastWriterAfter(nodes, E, w, v, x))
      && (forall x, w :: Recorded(lastReads, x, w) <==>
                         Analysed(taskType) && LastReaderAfter(nodes, E, w, v, x))
    }

    constructor (parentName: string, name: string, taskType: TaskType)
      ensures this.parentName == parentName && this.name == name && this.taskType == taskType
      ensures readOnlyVariables == readVariables == writeVariables == {}
      ensures lastWrites == lastReads == map[] && !hasCondition
      ensures Valid()
    {
      this.parentName, this.name, this.taskType := parentName, name, taskType;
      readOnlyVariables, readVariables, writeVariables := {}, {}, {};
      lastWrites, lastReads, hasCondition := map[], map[], false;
    }

    method AddReadWriteVariable(x: string)
      requires Valid()
      modifies `readVariables, `writeVariables
      ensures Valid()
      ensures readVariables == old(readVariables) + {x}
      ensures writeVariables == old(writeVariables) + {x}
    {
      readVariables := readVariables + {x};
      writeVariables := writeVariables + {x};
    }

    method AddReadOnlyVariable(x: string)
      requires Valid()
      modifies `readOnlyVariables, `readVariables
      ensures Valid()
      ensures readOnlyVariables == old(readOnlyVariables) + {x}
      ensures readVariables == old(readVariables) + {x}
    {
      readOnlyVariables := readOnlyVariables + {x};
      readVariables := readVariables + {x};
    }

    method AddWriteVariable(x: string)
      requires Valid() && (taskType.StartAgent? || taskType.IoPopWrite?)
      modifies `writeVariables
      ensures Valid()
      ensures writeVariables == old(writeVariables) + {x}
    {
      writeVariables := writeVariables + {x};
    }
  }
}
