/** The splitting task queue: a first-in-first-out line of task ids, and for every
    task that was split the counters of its pieces. */
module TaskQueues {
  import opened TaskIteration
  import opened TaskManagers
  import opened AgentTasks

  const SIZE_MAX: nat := SIZE_RANGE - 1
  const DEFAULT_MIN_VECTOR_SIZE := 50

  // An unsigned counter stepped down wraps around below zero.
  function Decrement(x: nat): nat {
    if x == 0 then SIZE_MAX else x - 1
  }

  // The counters of a task in pieces: to be handed out, handed out and not
  // done, and the piece to be fetched next.
  datatype Splitter = Splitter(size: nat, pending: nat, running: nat, next: nat) {
    function OneAssigned(): Splitter { Splitter(size, Decrement(pending), running + 1, next) }
    function OneDone(): Splitter { Splitter(size, pending, Decrement(running), next) }
    function OneFetched(): Splitter { Splitter(size, pending, running, next + 1) }
    predicate IsComplete() { running == 0 && pending == 0 }
  }

  // How a task is entered: whole, or in so many pieces.
  datatype Entry = Whole | InPieces(count: nat)

  datatype Queue = Queue(fifo: seq<Id>, splits: map<Id, Splitter>) {
    function Enqueue(id: Id, entry: Entry): Queue {
      Queue(fifo + [id], if entry.Whole? then splits else splits[id := Splitter(entry.count, entry.count, 0, 0)])
    }

    // The head of the line is handed out; it stays there while it has pieces left.
    function Assign(): Queue
      requires fifo != []
    {
      var id := fifo[0];
      if id in splits then
        var s := splits[id].OneAssigned();
        Queue(if s.pending == 0 then fifo[1..] else fifo, splits[id := s])
      else
        Queue(fifo[1..], splits)
    }

    function NextPiece(id: Id): nat {
      if id in splits then splits[id].next else 0
    }

    function Fetch(id: Id): Queue {
      if id in splits then Queue(fifo, splits[id := splits[id].OneFetched()]) else this
    }

    // The whole task is done with this piece.
    predicate Completes(id: Id) {
      id in splits ==> splits[id].OneDone().IsComplete()
    }

    function Finish(id: Id): Queue {
      if Completes(id) then Queue(fifo, splits - {id}) else Queue(fifo, splits[id := splits[id].OneDone()])
    }
  }

  class TaskSplitter<T> {
    const id: Id
    const debug: bool
    const tasks: seq<T>
    var pending: nat
    var running: nat
    var next: nat

    function Value(): Splitter
      reads this
    {
      Splitter(|tasks|, pending, running, next)
    }

    constructor (id: Id, tasks: seq<T>, debug: bool)
      ensures Value() == Splitter(|tasks|, |tasks|, 0, 0)
      ensures this.id == id && this.tasks == tasks && this.debug == debug
    {
      this.id, this.tasks, this.debug := id, tasks, debug;
      pending, running, next := |tasks|, 0, 0;
    }

    method OneTaskAssigned() returns (r: Outcome<bool>)
      modifies this
      ensures r.Failure? <==> debug && old(pending) < 1
      ensures Value() == if r.Failure? then old(Value()) else old(Value()).OneAssigned()
      ensures r.Success? ==> (r.value <==> pending == 0)
      ensures r.Success? ==> running == old(running) + 1 && next == old(next)
                             && (old(pending) >= 1 ==> pending == old(pending) - 1)
    {
      if debug && pending < 1 {
        return Failure(LogicError);
      }
      pending := Decrement(pending);
      running := running + 1;
      return Success(pending == 0);
    }

    method OneTaskDone() returns (r: Outcome<bool>)
      modifies this
      ensures r.Failure? <==> debug && old(running) < 1
      ensures Value() == if r.Failure? then old(Value()) else old(Value()).OneDone()
      ensures r.Success? ==> (r.value <==> Value().IsComplete())
      ensures r.Success? ==> pending == old(pending) && next == old(next) && (old(running) >= 1 ==> running == old(running) - 1)
    {
      if debug && running < 1 {
        return Failure(LogicError);
      }
      running := Decrement(running);
      return Success(running == 0 && pending == 0);
    }

    // The next piece; beyond the last there is nothing to refer to.
    method GetTask() returns (r: Outcome<T>)
      requires debug || next < |tasks|
      modifies this
      ensures r == if old(next) < |tasks| then Success(tasks[old(next)]) else Failure(LogicError)
      ensures Value() == if r.Failure? then old(Value()) else old(Value()).OneFetched()
      ensures r.Success? ==> next == old(next) + 1 && pending == old(pending) && running == old(running)
    {
      if debug && next >= |tasks| {
        return Failure(LogicError);
      }
      r := Success(tasks[next]);
      next := next + 1;
    }
  }

  // A registered task, as the queue sees it: only agent tasks can be split.
  datatype Registered = Agents(task: AgentTask) | InputOutput | Messages {
    function Type(): TaskType {
      match this
      case Agents(_) => AgentFunction
      case InputOutput => IoFunction
      case Messages => MbFunction
    }
  }

  // What splitting the task has come to, as far as splitting goes.
  ghost predicate SplitOf(t: Registered, split: Splitting, maxSplits: nat, minVectorSize: nat) {
    match t
    case Agents(task) =>
      && (Proper(split, task.Offset(), task.Population(), maxSplits, minVectorSize)
          <==> !Misled(task.Population(), maxSplits, minVectorSize))
      && (split.Pieces? ==> 1 <= |split.pieces| <= maxSplits && Tile(split.pieces, task.Offset(), task.Population()))
    case _ => split == NoSplit
  }

  lemma SplitInPieces(t: Registered, split: Splitting, maxSplits: nat, minVectorSize: nat)
    requires SplitOf(t, split, maxSplits, minVectorSize) && split.Pieces?
    ensures |split.pieces| >= 1
  {
  }

  class SplittingFIFOTaskQueue {
    const debug: bool
    var splittable: set<TaskType>
    var maxSplits: Size
    var minVectorSize: Size
    var queue: seq<Id>
    var splitMap: map<Id, TaskSplitter<Piece>>

    function Value(): Queue
      reads this, splitMap.Values
    {
      Queue(queue, map id | id in splitMap :: splitMap[id].Value())
    }

    ghost predicate Valid()
      reads this
    {
      && maxSplits >= 1 && minVectorSize >= 1
      && forall i, j :: i in splitMap && j in splitMap && i != j ==> splitMap[i] != splitMap[j]
    }

    constructor (slots: Size, debug: bool)
      requires slots >= 1
      ensures Valid() && this.debug == debug && maxSplits == slots && minVectorSize == 50
      ensures splittable == {} && queue == [] && splitMap == map[]
    {
      this.debug, splittable, maxSplits, minVectorSize := debug, {}, slots, DEFAULT_MIN_VECTOR_SIZE;
      queue, splitMap := [], map[];
    }

    // A queue needs a worker at least.
    static method WithSlots(slots: Size, debug: bool) returns (r: Outcome<SplittingFIFOTaskQueue>)
      ensures r.Success? <==> slots >= 1
      ensures r.Success? ==> fresh(r.value) && r.value.Valid() && r.value.Value() == Queue([], map[])
      ensures r.Success? ==> r.value.maxSplits == slots && r.value.minVectorSize == 50 && r.value.splittable == {}
    {
      if slots < 1 {
        return Failure(InvalidArgument);
      }
      var q := new SplittingFIFOTaskQueue(slots, debug);
      return Success(q);
    }

    method SetSplittable(taskType: TaskType)
      requires Valid()
      modifies `splittable
      ensures Valid() && splittable == old(splittable) + {taskType}
    {
      splittable := splittable + {taskType};
    }

    method SetMaxTasksPerSplit(n: Size) returns (r: Outcome<()>)
      requires Valid()
      modifies `maxSplits
      ensures Valid() && (r.Failure? <==> n < 1) && maxSplits == if r.Success? then n else old(maxSplits)
    {
      if n < 1 {
        return Failure(InvalidArgument);
      }
      maxSplits := n;
      return Success(());
    }

    method SetMinVectorSize(n: Size) returns (r: Outcome<()>)
      requires Valid()
      modifies `minVectorSize
      ensures Valid() && (r.Failure? <==> n < 1) && minVectorSize == if r.Success? then n else old(minVectorSize)
    {
      if n < 1 {
        return Failure(InvalidArgument);
      }
      minVectorSize := n;
      return Success(());
    }

    method Split(t: Registered) returns (split: Splitting)
      requires Valid() && (t.Agents? ==> t.task.Valid())
      ensures SplitOf(t, split, maxSplits, minVectorSize)
    {
      hide Proper, Misled, Tile, Even;
      split := NoSplit;
      if t.Agents? {
        split := t.task.SplitTask(maxSplits, minVectorSize);
        if split.Pieces? {
          NotEmpty(split.pieces, t.task.Offset(), t.task.Population());
        }
      }
    }

    method Append(taskId: Id)
      requires Valid()
      modifies `queue
      ensures Valid() && Value() == old(Value()).(fifo := old(Value()).fifo + [taskId]) && queue == old(queue) + [taskId]
    {
      queue := queue + [taskId];
    }

    lemma AtLeastOne()
      requires Valid()
      ensures maxSplits >= 1 && minVectorSize >= 1
    {
    }

    // Enters the pieces of a task.
    method Enter(taskId: Id, pieces: seq<Piece>) returns (r: Outcome<()>)
      requires Valid() && |pieces| >= 1
      modifies `splitMap
      ensures Valid() && (r.Failure? <==> taskId in old(splitMap))
      ensures splitMap.Keys == if r.Success? then old(splitMap.Keys) + {taskId} else old(splitMap.Keys)
      ensures Value() == if r.Success? then old(Value()).(splits := old(Value()).splits[taskId := Splitter(|pieces|, |pieces|, 0, 0)])
                         else old(Value())
      ensures r.Success? ==> taskId in splitMap && splitMap[taskId].tasks == pieces
    {
      if taskId in splitMap {
        return Failure(LogicError);
      }
      var splitter := new TaskSplitter(taskId, pieces, debug);
      splitMap := splitMap[taskId := splitter];
      return Success(());
    }

    // Appends a task; one of a type that may be split is entered in pieces if splitting
    // it gives any.  It has joined the line before anything can go wrong.
    method Enqueue(taskId: Id, tasks: seq<Registered>) returns (r: Outcome<()>, ghost split: Splitting)
      requires Valid() && forall t :: t in tasks && t.Agents? ==> t.task.Valid()
      modifies `queue, `splitMap
      ensures Valid()
      ensures taskId != 0xFFFF_FFFF_FFFF_FFFF && taskId < |tasks| && tasks[taskId].Type() in splittable
              ==> SplitOf(tasks[taskId], split, maxSplits, minVectorSize)
      ensures taskId == 0xFFFF_FFFF_FFFF_FFFF || taskId >= |tasks| || tasks[taskId].Type() !in splittable ==> split == NoSplit
      ensures r.Failure? <==> || (taskId != 0xFFFF_FFFF_FFFF_FFFF && taskId >= |tasks|)
                              || split.DivisionByZero? || (split.Pieces? && taskId in old(splitMap))
      ensures queue == old(queue) + [taskId]
      ensures splitMap.Keys == if r.Success? && split.Pieces? then old(splitMap.Keys) + {taskId} else old(splitMap.Keys)
      ensures Value() == old(Value()).Enqueue(taskId, if r.Success? && split.Pieces? then InPieces(|split.pieces|) else Whole)
      ensures r.Success? && split.Pieces? ==> taskId in splitMap && splitMap[taskId].tasks == split.pieces
    {
      hide SplitOf, Valid, Value;
      split := NoSplit;
      Append(taskId);
      AtLeastOne();
      if taskId == TERM_TASK_ID {
        return Success(()), split;
      }
      if taskId >= |tasks| {
        return Failure(InvalidArgument), split;
      }
      if tasks[taskId].Type() !in splittable {
        return Success(()), split;
      }
      var ts := Split(tasks[taskId]);
      split := ts;
      if ts.DivisionByZero? {
        return Failure(DivideByZero), split;
      }
      if ts.Pieces? {
        SplitInPieces(tasks[taskId], ts, maxSplits, minVectorSize);
        r := Enter(taskId, ts.pieces);
        return r, split;
      }
      return Success(()), split;
    }

    // One more piece of a split task is handed out.
    method AssignPiece(taskId: Id) returns (r: Outcome<bool>)
      requires Valid() && taskId in splitMap
      modifies splitMap[taskId]
      ensures r.Failure? <==> splitMap[taskId].debug && old(splitMap[taskId].pending) == 0
      ensures ghost var q := old(Value());
              Value() == if r.Failure? then q else q.(splits := q.splits[taskId := q.splits[taskId].OneAssigned()])
      ensures r.Success? ==> (r.value <==> splitMap[taskId].pending == 0)
    {
      r := splitMap[taskId].OneTaskAssigned();
    }

    // One of them is done.
    method PieceDone(taskId: Id) returns (r: Outcome<bool>)
      requires Valid() && taskId in splitMap
      modifies splitMap[taskId]
      ensures r.Failure? <==> splitMap[taskId].debug && old(splitMap[taskId].running) == 0
      ensures ghost var q := old(Value());
              Value() == if r.Failure? then q else q.(splits := q.splits[taskId := q.splits[taskId].OneDone()])
      ensures r.Success? ==> (r.value <==> splitMap[taskId].pending == 0 && splitMap[taskId].running == 0)
    {
      r := splitMap[taskId].OneTaskDone();
    }

    method GetNextTask() returns (taskId: Id, r: Outcome<()>)
      requires Valid() && queue != []
      modifies this, splitMap.Values
      ensures Valid() && taskId == old(queue)[0]
      ensures r.Failure? <==> old(taskId in splitMap && splitMap[taskId].debug && splitMap[taskId].pending == 0)
      ensures Value() == if r.Failure? then old(Value()) else old(Value()).Assign()
      ensures splitMap == old(splitMap)
      ensures queue == if r.Success? && (taskId !in splitMap || splitMap[taskId].pending == 0) then old(queue)[1..] else old(queue)
    {
      taskId := queue[0];
      r := Success(());
      if taskId in splitMap {
        var noneRemaining := AssignPiece(taskId);
        if noneRemaining.Failure? {
          return taskId, Failure(noneRemaining.error);
        }
        if noneRemaining.value {
          queue := queue[1..];
        }
      } else {
        queue := queue[1..];
      }
    }

    // What a worker holding the task is to run: a piece, or the task as a whole.  Past
    // the last piece a debug build refuses, and there is nothing to refer to in another.
    method GetTaskById(taskId: Id) returns (r: Outcome<nat>)
      requires Valid() && (taskId in splitMap ==> splitMap[taskId].debug || splitMap[taskId].next < |splitMap[taskId].tasks|)
      modifies splitMap.Values
      ensures Valid() && (r.Failure? <==> old(taskId in splitMap && splitMap[taskId].next >= |splitMap[taskId].tasks|))
      ensures r.Success? ==> r.value == old(Value()).NextPiece(taskId)
      ensures Value() == if r.Success? then old(Value()).Fetch(taskId) else old(Value())
      ensures r.Success? ==> r.value == if taskId in splitMap then old(splitMap[taskId].next) else 0
      ensures r.Success? && taskId in splitMap ==> splitMap[taskId].next == old(splitMap[taskId].next) + 1
    {
      if taskId in splitMap {
        var piece := splitMap[taskId].next;
        var t := splitMap[taskId].GetTask();
        return if t.Success? then Success(piece) else Failure(t.error);
      }
      return Success(0);
    }

    // Tells whether the scheduler is called back.  A debug build refuses where no piece
    // is running.
    method TaskDone(taskId: Id) returns (r: Outcome<bool>)
      requires Valid()
      modifies this, splitMap.Values
      ensures Valid()
      ensures r.Failure? <==> old(taskId in splitMap && splitMap[taskId].debug && splitMap[taskId].running < 1)
      ensures r.Success? ==>
                (r.value <==> taskId !in old(splitMap) || (old(splitMap)[taskId].pending == 0 && old(splitMap)[taskId].running == 0))
      ensures splitMap == if r.Success? && r.value then old(splitMap) - {taskId} else old(splitMap)
      ensures r.Success? ==> r.value == old(Value()).Completes(taskId)
      ensures Value() == if r.Success? then old(Value()).Finish(taskId) else old(Value())
    {
      if taskId in splitMap {
        var allCompleted := PieceDone(taskId);
        if allCompleted.Failure? {
          return Failure(allCompleted.error);
        }
        if !allCompleted.value {
          return Success(false);
        }
      }
      splitMap := splitMap - {taskId};
      return Success(true);
    }
  }

  lemma NotEmpty(ps: seq<Piece>, offset: nat, population: nat)
    requires Tile(ps, offset, population)
    ensures |ps| >= 1
  {
  }
}
