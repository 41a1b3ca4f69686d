/** Whole iterations of the parallel executor: what every interleaving keeps, that
    none goes on for ever, and when it gets to the end. */
module ExecutorRuns {
  import opened Digraph
  import opened TaskIteration
  import opened TaskQueues
  import opened Executor

  // -------------------------------------------------------------------- runs

  // A run is told by its states and by the moves between them.
  ghost predicate Follows(c: Config, s: State, m: Move, s': State) {
    WellShaped(c, s) && Enabled(c, s, m) && s' == Apply(c, s, m)
  }

  ghost predicate IsRunOf(c: Config, states: seq<State>, moves: seq<Move>) {
    && c.Valid() && CanStart(c)
    && |states| == |moves| + 1 && states[0] == Start(c)
    && forall i :: 0 <= i < |moves| ==> Follows(c, states[i], moves[i], states[i + 1])
  }

  lemma {:induction false} RunKeepsInv(c: Config, states: seq<State>, moves: seq<Move>, k: nat)
    requires IsRunOf(c, states, moves) && k < |states|
    ensures Inv(c, states[k])
  {
    hide Inv, Enabled, Apply, WellShaped, Start;
    if k == 0 {
      StartKeeps(c);
    } else {
      RunKeepsInv(c, states, moves, k - 1);
      assert Follows(c, states[k - 1], moves[k - 1], states[k]);
      StepKeeps(c, states[k - 1], moves[k - 1]);
    }
  }

  // ------------------------------------------------------------------ safety

  // Every piece of d has ended, and the scheduler was told so.
  ghost predicate WholeTaskEnded(log: seq<Event>, d: Id) {
    Called(d) in log && exists n: nat :: Entered(d, n) in log && forall p: nat :: p < n ==> Ended(d, p) in log
  }

  lemma EarlierStays(log: seq<Event>, i: nat, j: nat)
    requires i <= j <= |log|
    ensures forall e :: e in log[..i] ==> e in log[..j]
  {
    assert log[..i] == log[..j][..i];
  }

  lemma EventAt(log: seq<Event>, i: nat, e: Event) returns (k: nat)
    requires i <= |log| && e in log[..i]
    ensures k < i && log[k] == e
  {
    k :| 0 <= k < i && log[..i][k] == e;
  }

  // A call tells that the task has ended whole, before.
  lemma CalledAfterAll(c: Config, log: seq<Event>, i: nat, d: Id)
    requires History(c, log) && i <= |log| && Called(d) in log[..i]
    ensures WholeTaskEnded(log[..i], d)
  {
    var k := EventAt(log, i, Called(d));
    assert Justified(c, log[..k], log[k]);
    EarlierStays(log, k, i);
    var n: nat :| Entered(d, n) in log[..k] && forall p: nat :: p < n ==> Ended(d, p) in log[..k];
  }

  // No piece of a task starts before every piece of all that the task depends
  // on, directly or not, has ended.
  lemma StartsAfterDependencies(c: Config, log: seq<Event>, i: nat, t: Id, p: nat, d: Id)
    requires History(c, log) && i < |log| && log[i] == Started(t, p) && Reaches(c.Edges(), d, t)
    ensures WholeTaskEnded(log[..i], d)
  {
    assert Justified(c, log[..i], log[i]);
    var n: nat :| Entered(t, n) in log[..i] && p < n;
    var k := EventAt(log, i, Entered(t, n));
    assert Justified(c, log[..k], log[k]);
    EarlierStays(log, k, i);
    CalledAfterAll(c, log, i, d);
  }

  lemma PiecesWaitInEveryRun(c: Config, states: seq<State>, moves: seq<Move>, i: nat, t: Id, p: nat, d: Id)
    requires IsRunOf(c, states, moves)
    requires ghost var log := states[|moves|].log; i < |log| && log[i] == Started(t, p)
    requires Reaches(c.Edges(), d, t)
    ensures WholeTaskEnded(states[|moves|].log[..i], d)
  {
    RunKeepsInv(c, states, moves, |moves|);
    hide TaskInv, SchedulerInv, History;
    StartsAfterDependencies(c, states[|moves|].log, i, t, p, d);
  }

  // Nothing is logged twice: a piece starts once, ends once, a task calls once.
  lemma NothingTwice(c: Config, s: State, i: nat, j: nat)
    requires Inv(c, s) && i < |s.log| && j < |s.log| && s.log[i] == s.log[j]
    ensures i == j
  {
    hide TaskInv, SchedulerInv, Justified;
    if i < j { Earlier(s.log, i, j); }
    if j < i { Earlier(s.log, j, i); }
  }

  lemma Earlier(log: seq<Event>, i: nat, j: nat)
    requires i < j < |log|
    ensures log[i] in log[..j]
  {
    assert log[..j][i] == log[i];
  }

  /** In every run a task is only ever in line, split or held in the queue of its type: no worker
      of another queue touches it. */
  lemma {:induction false} ServedByItsQueue(c: Config, states: seq<State>, moves: seq<Move>, k: nat, id: Id)
    requires IsRunOf(c, states, moves) && k < |states|
    ensures |c.route| == |c.parents| && |states[k].workers| == |c.home|
    ensures forall w :: 0 <= w < |c.home| && states[k].workers[w].Holds(id) ==> id < |c.parents| && c.home[w] == c.route[id]
    ensures forall q :: 0 <= q < |states[k].queues| && (id in states[k].queues[q].fifo || id in states[k].queues[q].splits)
                        ==> id < |c.parents| && q == c.route[id]
  {
    RunKeepsInv(c, states, moves, k);
    var s := states[k];
    hide TaskInv, SchedulerInv, History, NoDuplicates, Follows;
    forall w | 0 <= w < |c.home| && s.workers[w].Holds(id) ensures id < |c.parents| && c.home[w] == c.route[id] {
      assert w in Holders(s.workers, id);
      KnownIsFlying(c, s, id);
    }
    forall q | 0 <= q < |s.queues| && (id in s.queues[q].fifo || id in s.queues[q].splits) ensures id < |c.parents| && q == c.route[id] {
      assert !AwayFrom(s.queues[q], id);
      KnownIsFlying(c, s, id);
    }
  }

  // In any state of any run, a split task in flight is accounted for.
  lemma SplitTaskAccounted(c: Config, s: State, id: Id, q: nat)
    requires Inv(c, s) && q < |s.queues| && id in s.queues[q].splits
    ensures ghost var sp, fifo := s.queues[q].splits[id], s.queues[q].fifo;
            && sp.running == |Holders(s.workers, id)|
            && sp.next == sp.size - sp.pending - |Takers(s.workers, id)|
            && (id in fifo <==> sp.pending > 0)
            && !sp.IsComplete() && Called(id) !in s.log
            && (forall w :: 0 <= w < |s.workers| && s.workers[w].Holds(id) ==> c.home[w] == q)
            && (forall p: nat :: Started(id, p) in s.log <==> p < sp.next)
  {
    assert !AwayFrom(s.queues[q], id);
    KnownIsFlying(c, s, id);
    hide TaskInv, SchedulerInv, History;
    forall w | 0 <= w < |s.workers| && s.workers[w].Holds(id) ensures c.home[w] == q {
      assert w in Holders(s.workers, id);
    }
  }

  // The entry of a split task outlives every worker that holds the task.
  lemma EntryOutlivesHolders(c: Config, s: State, m: Move, id: Id, q: nat, w: nat)
    requires Inv(c, s) && Enabled(c, s, m) && q < |s.queues| && id in s.queues[q].splits
    requires w < |s.workers| && Apply(c, s, m).workers[w].Holds(id)
    ensures id in Apply(c, s, m).queues[q].splits
  {
    hide TaskInv, Sound, Completed, History;
    var s' := Apply(c, s, m);
    StepKeeps(c, s, m);
    SplitTaskAccounted(c, s, id, q);
    assert s.workers[w].Holds(id) <==> w in Holders(s.workers, id);
    if m.Report? && id !in s'.queues[q].splits {
      var v := m.w;
      assert s.workers[v].id == id && s.queues[q].Completes(id);
      assert v in Holders(s.workers, id) && |Holders(s.workers, id)| == 1;
      Alone(Holders(s.workers, id), v, w);
    }
  }

  lemma Alone(S: set<nat>, v: nat, w: nat)
    requires v in S && |S| == 1
    ensures w in S ==> w == v
  {
    assert |S - {v}| == 0;
    assert S - {v} == {};
    assert w in S <==> w in S - {v} || w == v;
  }

  // ----------------------------------------------------------------- progress

  // Unless the iteration is over, some thread can go on, if the dependencies
  // have no cycle.
  lemma SomeoneCanGoOn(c: Config, s: State) returns (m: Move)
    requires Inv(c, s) && s.pc != Finished && Acyclic(c.Edges())
    ensures Enabled(c, s, m)
  {
    SchedulerOf(c, s);
    if s.pc == Scheduling {
      m := if s.it.ready == [] then Wait else PopTask;
    } else if s.pc.Enqueueing? {
      m := EnterTask(Whole);
    } else if s.doneq != [] {
      m := Drain;
    } else {
      IssuedRemain(c, s);
      var id :| id in s.it.issued;
      IssuedNotPending(c, s, id);
      hide Inv, SchedulerInv;
      m := FlyingGoesOn(c, s, id);
    }
  }

  lemma IssuedRemain(c: Config, s: State)
    requires Inv(c, s) && s.pc == Waiting && s.doneq == [] && Acyclic(c.Edges())
    ensures s.it.issued != {}
  {
    hide TaskInv, History, NoDuplicates, Consistent;
    if s.it.issued == {} {
      StuckIsCyclic(c.parents, s.it);
    }
  }

  // A task in flight is held by a worker, which can go on, or waits in line for
  // one: then a worker of its queue can go on.
  lemma FlyingGoesOn(c: Config, s: State, id: Id) returns (m: Move)
    requires Inv(c, s) && s.pc == Waiting && s.doneq == [] && id in s.it.issued && id < |c.parents|
    ensures Enabled(c, s, m)
  {
    var w := SomeoneHas(c, s, id);
    hide TaskInv, SchedulerInv, History, NoDuplicates;
    m := match s.workers[w]
         case Idle => Take(w)
         case Assigned(_) => Fetch(w)
         case Running(_, _) => Run(w)
         case Ran(_) => Report(w);
  }

  lemma SomeoneHas(c: Config, s: State, id: Id) returns (w: nat)
    requires Inv(c, s) && s.pc == Waiting && s.doneq == [] && id in s.it.issued && id < |c.parents|
    ensures w < |s.workers| == |c.home| && c.home[w] < |s.queues|
    ensures s.workers[w].Idle? ==> s.queues[c.home[w]].fifo != []
  {
    assert TaskInv(c, s, id) && InFlight(s, id);
    hide SchedulerInv, History, NoDuplicates, PiecesApart, Logged, Inv, Reaches;
    assert Flying(c, s, id);
    if Holders(s.workers, id) != {} {
      w :| w in Holders(s.workers, id);
    } else {
      w := QueueServed(c, s, c.route[id]);
      assert Pending(s.queues[c.route[id]], id) >= 1;
      assert id in s.queues[c.route[id]].fifo;
    }
  }

  lemma QueueServed(c: Config, s: State, j: nat) returns (w: nat)
    requires c.Valid() && j < c.queueCount
    ensures w < |c.home| && c.home[w] == j
  {
    assert c.Served(j);
    var v :| 0 <= v < |c.home| && c.home[v] == j;
    w := v;
  }

  // --------------------------------------------------------------- termination

  // What a task still costs, at most.
  function TaskCost(c: Config, s: State, id: Id): nat
    requires WellShaped(c, s) && id < |c.parents|
  {
    var k := 4 * c.maxPieces + 4;
    if s.pc == Enqueueing(id) then k + 3
    else if InFlight(s, id) then 3 + 4 * Pending(s.queues[c.route[id]], id)
    else if id in s.doneq then 2
    else if id in Done(s.it) then 0
    else 2 * k
  }

  function WorkerCost(w: Worker): nat {
    match w
    case Idle => 0
    case Assigned(_) => 3
    case Running(_, _) => 2
    case Ran(_) => 1
  }

  function TaskCosts(c: Config, s: State): (r: seq<nat>)
    requires WellShaped(c, s)
    ensures |r| == |c.parents| && forall i :: 0 <= i < |r| ==> r[i] == TaskCost(c, s, i)
  {
    seq(|c.parents|, i requires 0 <= i < |c.parents| => TaskCost(c, s, i))
  }

  function WorkerCosts(s: State): (r: seq<nat>)
    ensures |r| == |s.workers| && forall i :: 0 <= i < |r| ==> r[i] == WorkerCost(s.workers[i])
  {
    seq(|s.workers|, i requires 0 <= i < |s.workers| => WorkerCost(s.workers[i]))
  }

  function Sum(a: seq<nat>): nat {
    if a == [] then 0 else Sum(a[..|a| - 1]) + a[|a| - 1]
  }

  // What the rest of the iteration costs, at most, in steps.
  function Cost(c: Config, s: State): nat
    requires WellShaped(c, s)
  {
    Sum(TaskCosts(c, s)) + Sum(WorkerCosts(s)) + PcCost(s.pc)
  }

  lemma {:induction false} SumFalls(a: seq<nat>, b: seq<nat>, i: nat)
    requires |a| == |b| && i < |a| && forall k :: 0 <= k < |a| && k != i ==> b[k] <= a[k]
    ensures Sum(b) + a[i] <= Sum(a) + b[i]
  {
    var n := |a| - 1;
    if i < n {
      SumFalls(a[..n], b[..n], i);
    } else {
      SumNoMore(a[..n], b[..n]);
    }
  }

  lemma {:induction false} SumNoMore(a: seq<nat>, b: seq<nat>)
    requires |a| == |b| && forall k :: 0 <= k < |a| ==> b[k] <= a[k]
    ensures Sum(b) <= Sum(a)
  {
    if a != [] {
      SumNoMore(a[..|a| - 1], b[..|b| - 1]);
    }
  }

  lemma {:induction false} SumBounded(a: seq<nat>, k: nat)
    requires forall i :: 0 <= i < |a| ==> a[i] <= k
    ensures Sum(a) <= |a| * k
  {
    if a != [] {
      SumBounded(a[..|a| - 1], k);
    }
  }

  function PcCost(pc: Pc): nat {
    if pc.Scheduling? || pc.Enqueueing? then 1 else 0
  }

  // How the cost changes when one task and one worker get on.
  lemma CostOfWorkerMove(c: Config, s: State, s': State, t: Id, w: nat)
    requires WellShaped(c, s) && WellShaped(c, s') && t < |c.parents| && w < |s.workers|
    requires s'.pc == s.pc
    requires forall id :: 0 <= id < |c.parents| && id != t ==> TaskCost(c, s', id) == TaskCost(c, s, id)
    requires forall v :: 0 <= v < |s.workers| && v != w ==> s'.workers[v] == s.workers[v]
    ensures Cost(c, s') + TaskCost(c, s, t) + WorkerCost(s.workers[w])
            <= Cost(c, s) + TaskCost(c, s', t) + WorkerCost(s'.workers[w])
  {
    hide TaskCost, Sum;
    SumFalls(TaskCosts(c, s), TaskCosts(c, s'), t);
    SumFalls(WorkerCosts(s), WorkerCosts(s'), w);
  }

  lemma CostOfSchedulerMove(c: Config, s: State, s': State, t: Id)
    requires WellShaped(c, s) && WellShaped(c, s') && t < |c.parents| && s'.workers == s.workers
    requires forall id :: 0 <= id < |c.parents| && id != t ==> TaskCost(c, s', id) <= TaskCost(c, s, id)
    ensures Cost(c, s') + TaskCost(c, s, t) + PcCost(s.pc) <= Cost(c, s) + TaskCost(c, s', t) + PcCost(s'.pc)
  {
    hide TaskCost, Sum;
    SumFalls(TaskCosts(c, s), TaskCosts(c, s'), t);
  }

  lemma TaskCostSame(c: Config, s: State, s': State, t: Id, j: nat, w: nat, id: Id)
    requires WellShaped(c, s) && WellShaped(c, s') && id < |c.parents| && id != t && Touches(s, s', t, j, w)
    requires s'.it == s.it && s'.pc == s.pc && (id in s'.doneq <==> id in s.doneq)
    ensures TaskCost(c, s', id) == TaskCost(c, s, id)
  {
    assert SameIn(s.queues[c.route[id]], s'.queues[c.route[id]], id);
    hide Touches;
  }

  lemma TakeCosts(c: Config, s: State, w: nat)
    requires Inv(c, s) && Enabled(c, s, Take(w))
    ensures WellShaped(c, Apply(c, s, Take(w))) && Cost(c, Apply(c, s, Take(w))) < Cost(c, s)
  {
    hide Inv, Cost, Tracks, NoRepeats, Queue.Assign, InFlight, Pending, Size, SameIn;
    SchedulerOf(c, s);
    HeadIsFlying(c, s, w);
    var s', j := Apply(c, s, Take(w)), c.home[w];
    var q := s.queues[j];
    var t := q.fifo[0];
    AssignsHead(q);
    TouchesOne(s, s', t, j, q.Assign(), w, Assigned(t));
    forall id | 0 <= id < |c.parents| && id != t ensures TaskCost(c, s', id) == TaskCost(c, s, id) {
      TaskCostSame(c, s, s', t, j, w, id);
    }
    hide TaskCost;
    CostOfWorkerMove(c, s, s', t, w);
    FlyingCost(c, s, t);
    FlyingCost(c, s', t) by { StillInFlight(s, s', t); }
  }

  lemma HeadIsFlying(c: Config, s: State, w: nat)
    requires Inv(c, s) && Enabled(c, s, Take(w))
    ensures WellShaped(c, s) && WellShaped(c, Apply(c, s, Take(w)))
    ensures ghost var q := s.queues[c.home[w]];
            ghost var t := q.fifo[0];
            && t < |c.parents| && c.route[t] == c.home[w] && InFlight(s, t)
            && NoRepeats(q.fifo) && Pending(q, t) > 0
  {
    hide TaskInv, SchedulerInv, History, NoDuplicates;
    var q := s.queues[c.home[w]];
    var t := q.fifo[0];
    assert !Absent(s, t) && !AwayFrom(q, t);
    KnownIsFlying(c, s, t);
    QueueAt(s.queues, c.home[w]);
    InFifoPending(q, s.workers, s.log, t);
  }

  lemma StillInFlight(s: State, s': State, t: Id)
    requires InFlight(s, t) && s'.it == s.it && s'.pc == s.pc && s'.doneq == s.doneq
    ensures InFlight(s', t)
  {
  }

  lemma FlyingCost(c: Config, s: State, t: Id)
    requires WellShaped(c, s) && t < |c.parents| && InFlight(s, t)
    ensures TaskCost(c, s, t) == 3 + 4 * Pending(s.queues[c.route[t]], t)
  {
  }

  lemma FinishKeepsPending(q: Queue, ws: seq<Worker>, log: seq<Event>, t: Id)
    requires Tracks(q, ws, log, t)
    ensures Pending(q.Fetch(t), t) == Pending(q, t)
    ensures !q.Completes(t) ==> Pending(q.Finish(t), t) == Pending(q, t)
  {
  }

  // A worker that holds a task gets on with it.
  lemma HolderCosts(c: Config, s: State, m: Move)
    requires Inv(c, s) && Enabled(c, s, m) && (m.Fetch? || m.Run? || m.Report?)
    ensures WellShaped(c, Apply(c, s, m)) && Cost(c, Apply(c, s, m)) < Cost(c, s)
  {
    hide TaskInv, SchedulerInv, History, NoDuplicates, Absent, Cost;
    var s', w := Apply(c, s, m), m.w;
    var t := s.workers[w].id;
    var j := c.home[w];
    HolderIsKnown(c, s, w);
    var q := s.queues[j];
    FetchFrames(q, t);
    FinishKeepsPending(q, s.workers, s.log, t);
    HolderTouches(c, s, m);
    hide Inv, Tracks, NoRepeats, InFlight, Pending, SameIn, Touches, TaskCost, Queue.Fetch, Queue.Finish, Queue.Completes, Done;
    forall id | 0 <= id < |c.parents| && id != t ensures TaskCost(c, s', id) == TaskCost(c, s, id) {
      assert id in s.doneq + [t] <==> id in s.doneq;
      TaskCostSame(c, s, s', t, j, w, id);
    }
    CostOfWorkerMove(c, s, s', t, w);
    FlyingCost(c, s, t);
    if s'.doneq == s.doneq {
      StillInFlight(s, s', t);
      FlyingCost(c, s', t);
    } else {
      CalledCost(c, s, s', t);
    }
  }

  lemma CalledCost(c: Config, s: State, s': State, t: Id)
    requires WellShaped(c, s') && t < |c.parents| && InFlight(s, t)
    requires s'.it == s.it && s'.pc == s.pc && s'.doneq == s.doneq + [t]
    ensures TaskCost(c, s', t) == 2
  {
  }

  lemma HolderTouches(c: Config, s: State, m: Move)
    requires WellShaped(c, s) && Enabled(c, s, m) && (m.Fetch? || m.Run? || m.Report?)
    ensures Touches(s, Apply(c, s, m), s.workers[m.w].id, c.home[m.w], m.w)
  {
    hide SameIn, Queue.Completes;
    var q, t := s.queues[c.home[m.w]], s.workers[m.w].id;
    FetchFrames(q, t);
    hide Queue.Fetch, Queue.Finish;
    var s' := Apply(c, s, m);
    assert s.queues == s.queues[c.home[m.w] := q];
    TouchesOne(s, s', t, c.home[m.w], s'.queues[c.home[m.w]], m.w, s'.workers[m.w]);
  }

  lemma EnterCosts(c: Config, s: State, entry: Entry)
    requires Inv(c, s) && Enabled(c, s, EnterTask(entry))
    ensures WellShaped(c, Apply(c, s, EnterTask(entry))) && Cost(c, Apply(c, s, EnterTask(entry))) < Cost(c, s)
  {
    hide TaskInv, History, NoDuplicates, Cost;
    var s', t := Apply(c, s, EnterTask(entry)), s.pc.id;
    var j := c.route[t];
    var q := s.queues[j];
    EnteringFacts(c, s);
    EnterFrames(q, t, entry);
    EnterScheduler(c, s, s');
    var k := 4 * c.maxPieces + 4;
    assert TaskCost(c, s, t) == k + 3;
    assert Pending(q.Enqueue(t, entry), t) == Pieces(entry) by {
      assert q.Enqueue(t, entry).fifo[|q.fifo|] == t;
    }
    FlyingCost(c, s', t);
    hide Queue.Enqueue, Inv, SchedulerInv, Sound;
    forall id | 0 <= id < |c.parents| && id != t ensures TaskCost(c, s', id) <= TaskCost(c, s, id) {
      if c.route[id] == j { assert SameIn(q, q.Enqueue(t, entry), id); }
    }
    CostOfSchedulerMove(c, s, s', t);
  }

  lemma PopCosts(c: Config, s: State)
    requires Inv(c, s) && Enabled(c, s, PopTask)
    ensures WellShaped(c, Apply(c, s, PopTask)) && Cost(c, Apply(c, s, PopTask)) < Cost(c, s)
  {
    SchedulerOf(c, s);
    hide Inv, Cost;
    var s', t := Apply(c, s, PopTask), s.it.ready[|s.it.ready| - 1];
    PopSound(c.parents, s.it);
    PopInTable(c.parents, s.it);
    hide Sound, Done;
    forall id | 0 <= id < |c.parents| && id != t ensures TaskCost(c, s', id) <= TaskCost(c, s, id) {
    }
    assert TaskCost(c, s, t) == 2 * (4 * c.maxPieces + 4);
    CostOfSchedulerMove(c, s, s', t);
  }

  lemma WaitCosts(c: Config, s: State)
    requires Inv(c, s) && Enabled(c, s, Wait)
    ensures WellShaped(c, Apply(c, s, Wait)) && Cost(c, Apply(c, s, Wait)) < Cost(c, s)
  {
    SchedulerOf(c, s);
    hide Inv, SchedulerInv, Sum;
    assert TaskCosts(c, s) == TaskCosts(c, Apply(c, s, Wait));
  }

  lemma DrainCosts(c: Config, s: State)
    requires Inv(c, s) && Enabled(c, s, Drain)
    ensures WellShaped(c, Apply(c, s, Drain)) && Cost(c, Apply(c, s, Drain)) < Cost(c, s)
  {
    hide Inv, Cost, FinishAll, Sound, Done, Enabled, TaskCost, Completed;
    SchedulerOf(c, s);
    DrainShape(c, s);
    var s', t := Apply(c, s, Drain), s.doneq[0];
    InDoneq(c, s, t);
    forall id | 0 <= id < |c.parents| ensures TaskCost(c, s', id) <= TaskCost(c, s, id) {
      DrainedCost(c, s, id);
    }
    DrainedCost(c, s, t);
    CostOfSchedulerMove(c, s, s', t);
  }

  lemma DrainShape(c: Config, s: State)
    requires SchedulerInv(c, s) && WellShaped(c, s) && Enabled(c, s, Drain)
    ensures s.doneq != [] && s.pc == Waiting && WellShaped(c, Apply(c, s, Drain))
    ensures ghost var it := FinishAll(c.parents, s.it, s.doneq);
            Done(it) == Done(s.it) + Elements(s.doneq) && it.issued == s.it.issued - Elements(s.doneq)
  {
    hide FinishAll;
    FinishAllSound(c.parents, s.it, s.doneq);
  }

  // Draining makes the drained tasks cheaper and the others no dearer.
  lemma DrainedCost(c: Config, s: State, id: Id)
    requires SchedulerInv(c, s) && WellShaped(c, s) && Enabled(c, s, Drain) && WellShaped(c, Apply(c, s, Drain))
    requires id < |c.parents|
    ensures ghost var s' := Apply(c, s, Drain); if id in s.doneq then TaskCost(c, s', id) + 2 == TaskCost(c, s, id)
            else TaskCost(c, s', id) <= TaskCost(c, s, id)
  {
    hide FinishAll, Sound, Completed, Done;
    DrainShape(c, s);
  }

  lemma InDoneq(c: Config, s: State, t: Id)
    requires SchedulerInv(c, s) && t in s.doneq
    ensures t in Elements(s.doneq) && t in s.it.issued && t < |c.parents|
  {
  }

  // Every step makes what is left cheaper.
  lemma StepCosts(c: Config, s: State, m: Move)
    requires Inv(c, s) && Enabled(c, s, m)
    ensures WellShaped(c, Apply(c, s, m)) && Cost(c, Apply(c, s, m)) < Cost(c, s)
  {
    hide *;
    match m
    case Take(w) => TakeCosts(c, s, w);
    case Fetch(_) => HolderCosts(c, s, m);
    case Run(_) => HolderCosts(c, s, m);
    case Report(_) => HolderCosts(c, s, m);
    case PopTask => PopCosts(c, s);
    case EnterTask(entry) => EnterCosts(c, s, entry);
    case Wait => WaitCosts(c, s);
    case Drain => DrainCosts(c, s);
  }

  // ---------------------------------------------------------- whole iterations

  lemma {:induction false} RunIsPaid(c: Config, states: seq<State>, moves: seq<Move>, k: nat)
    requires IsRunOf(c, states, moves) && k < |states|
    ensures WellShaped(c, states[k]) && WellShaped(c, Start(c)) && k + Cost(c, states[k]) <= Cost(c, Start(c))
  {
    hide Inv, Enabled, Apply, Cost, WellShaped, Start;
    RunKeepsInv(c, states, moves, k);
    SchedulerOf(c, states[k]);
    if k > 0 {
      RunIsPaid(c, states, moves, k - 1);
      RunKeepsInv(c, states, moves, k - 1);
      assert Follows(c, states[k - 1], moves[k - 1], states[k]);
      StepCosts(c, states[k - 1], moves[k - 1]);
    }
  }

  // No interleaving goes on for ever: there is a bound on the steps of any run.
  lemma RunsAreBounded(c: Config, states: seq<State>, moves: seq<Move>)
    requires IsRunOf(c, states, moves)
    ensures |moves| <= |c.parents| * (8 * c.maxPieces + 8) + 1
  {
    hide IsRunOf, Start, TaskCost;
    RunLength(c, states, moves);
    RunIsPaid(c, states, moves, |moves|);
    StartCosts(c, states, moves);
    SumBounded(TaskCosts(c, Start(c)), 8 * c.maxPieces + 8);
    SumBounded(WorkerCosts(Start(c)), 0);
  }

  lemma RunLength(c: Config, states: seq<State>, moves: seq<Move>)
    requires IsRunOf(c, states, moves)
    ensures |states| == |moves| + 1
  {
  }

  lemma StartCosts(c: Config, states: seq<State>, moves: seq<Move>)
    requires IsRunOf(c, states, moves) && WellShaped(c, Start(c))
    ensures forall i :: 0 <= i < |c.parents| ==> TaskCost(c, Start(c), i) <= 8 * c.maxPieces + 8
    ensures Start(c).pc == Scheduling && forall i :: 0 <= i < |Start(c).workers| ==> Start(c).workers[i] == Idle
  {
  }

  ghost predicate WentThrough(log: seq<Event>, id: Id) {
    exists n: nat :: RanWhole(log, id, n)
  }

  // What the end of an iteration means: every task has been through, whole, and
  // nothing is left over.
  lemma FinishedMeans(c: Config, s: State)
    requires Inv(c, s) && s.pc == Finished
    ensures forall id :: 0 <= id < |c.parents| ==> WentThrough(s.log, id)
    ensures forall w :: 0 <= w < |s.workers| ==> s.workers[w].Idle?
    ensures forall j :: 0 <= j < |s.queues| ==> s.queues[j] == Queue([], map[])
    ensures s.doneq == [] && Acyclic(c.Edges())
  {
    SchedulerOf(c, s);
    CompletedAcyclic(c.parents, s.it);
    HeadIn(s.doneq);
    assert forall v :: v in s.doneq <==> v in Elements(s.doneq);
    forall id: Id ensures Absent(s, id) && (id < |c.parents| ==> WentThrough(s.log, id)) {
      assert TaskInv(c, s, id);
      assert !InFlight(s, id);
      assert id < |c.parents| ==> Over(s, id);
    }
    hide Inv, SchedulerInv, WentThrough;
    forall w | 0 <= w < |s.workers| ensures s.workers[w].Idle? {
      var id := if s.workers[w].Idle? then 0 else s.workers[w].id;
      assert s.workers[w].Holds(id) <==> w in Holders(s.workers, id);
      assert Absent(s, id);
    }
    forall j | 0 <= j < |s.queues| ensures s.queues[j] == Queue([], map[]) {
      EmptyQueue(s, j);
    }
  }

  lemma HeadIn(fifo: seq<Id>)
    ensures fifo == [] || fifo[0] in fifo
  {
  }

  lemma EmptyQueue(s: State, j: nat)
    requires j < |s.queues| && forall id: Id :: Absent(s, id)
    ensures s.queues[j] == Queue([], map[])
  {
    var q := s.queues[j];
    HeadIn(q.fifo);
    forall id: Id ensures id !in q.splits && id !in q.fifo {
      assert Absent(s, id);
    }
  }

  // A run has come to rest when no thread can go on.
  ghost predicate AtRest(c: Config, s: State)
    requires WellShaped(c, s)
  {
    forall m :: !Enabled(c, s, m)
  }

  // With acyclic dependencies, a run is at rest exactly when the iteration is over.
  lemma RestsOnlyAtTheEnd(c: Config, states: seq<State>, moves: seq<Move>)
    requires IsRunOf(c, states, moves) && Acyclic(c.Edges())
    ensures ghost var s := states[|moves|]; WellShaped(c, s) && (AtRest(c, s) <==> s.pc == Finished)
  {
    var s := states[|moves|];
    RunKeepsInv(c, states, moves, |moves|);
    SchedulerOf(c, s);
    if s.pc != Finished {
      var m := SomeoneCanGoOn(c, s);
    } else {
      FinishedMeans(c, s);
      hide Inv;
      forall m ensures !Enabled(c, s, m) {
      }
    }
  }

  // An iteration gets to the end if and only if the dependencies are acyclic:
  // then every run can be continued until it does, otherwise none ever does.
  lemma EndsExactlyIfAcyclic(c: Config, states: seq<State>, moves: seq<Move>)
    requires IsRunOf(c, states, moves)
    ensures Acyclic(c.Edges()) <==> exists more, ms :: Reaching(c, states, moves, more, ms)
  {
    if Acyclic(c.Edges()) {
      var more, ms := RunOn(c, states, moves);
    }
    if more, ms :| Reaching(c, states, moves, more, ms) {
      RunKeepsInv(c, more, ms, |ms|);
      hide Inv, IsRunOf;
      FinishedMeans(c, more[|ms|]);
    }
  }

  ghost predicate Reaching(c: Config, states: seq<State>, moves: seq<Move>, more: seq<State>, ms: seq<Move>) {
    IsRunOf(c, more, ms) && states <= more && moves <= ms && more[|ms|].pc == Finished
  }

  lemma {:induction false} RunOn(c: Config, states: seq<State>, moves: seq<Move>) returns (more: seq<State>, ms: seq<Move>)
    requires IsRunOf(c, states, moves) && Acyclic(c.Edges())
    ensures Reaching(c, states, moves, more, ms)
    decreases |c.parents| * (8 * c.maxPieces + 8) + 1 - |moves|
  {
    var s := states[|moves|];
    RunKeepsInv(c, states, moves, |moves|);
    RunsAreBounded(c, states, moves);
    if s.pc == Finished {
      more, ms := states, moves;
    } else {
      SchedulerOf(c, s);
      var m := SomeoneCanGoOn(c, s);
      hide Inv, Enabled, Apply, Acyclic;
      assert Follows(c, s, m, Apply(c, s, m));
      more, ms := RunOn(c, states + [Apply(c, s, m)], moves + [m]);
    }
  }

  // Tasks are completed in an order that extends the dependencies.
  lemma CompletedInOrder(c: Config, s: State, i: nat, t: Id, d: Id)
    requires Inv(c, s) && i < |s.log| && s.log[i] == Called(t) && Reaches(c.Edges(), d, t)
    ensures Called(d) in s.log[..i]
  {
    hide TaskInv, SchedulerInv;
    assert Justified(c, s.log[..i], s.log[i]);
    var n: nat :| Entered(t, n) in s.log[..i] && forall p: nat :: p < n ==> Ended(t, p) in s.log[..i];
    var k := EventAt(s.log, i, Entered(t, n));
    assert Justified(c, s.log[..k], s.log[k]);
    EarlierStays(s.log, k, i);
  }

  // An iteration cannot start only if there is no task to begin with: there are
  // none at all, or the dependencies have a cycle.
  lemma CannotStart(c: Config)
    requires c.Valid() && Acyclic(c.Edges())
    ensures CanStart(c) <==> |c.parents| > 0
  {
    var it := Reset(c.parents);
    ResetSound(c.parents);
    assert 0 in Roots(c.parents) && |c.parents| > 0 ==> 0 in it.ready;
    if it.ready == [] && |c.parents| > 0 {
      assert 0 in it.pending;
      StuckIsCyclic(c.parents, it);
    }
  }
}
