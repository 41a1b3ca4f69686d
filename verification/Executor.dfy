/** The parallel executor: the scheduler and the workers of all queues, taking turns
    in any order.  A step is what one thread does while it holds a lock, or the
    running of a piece. */
module Executor {
  import opened Digraph
  import opened TaskIteration
  import opened TaskQueues

  // ------------------------------------------------------------- the machine

  // The dependencies, the queue each task goes to, the queue each worker serves,
  // and the most pieces a task is split into.
  datatype Config = Config(parents: Parents, route: seq<nat>, home: seq<nat>, queueCount: nat, maxPieces: nat) {
    ghost predicate Valid() {
      && InTable(parents) && |route| == |parents| && maxPieces >= 1
      && (forall id :: 0 <= id < |route| ==> route[id] < queueCount)
      && (forall w :: 0 <= w < |home| ==> home[w] < queueCount)
      && (forall q :: 0 <= q < queueCount ==> Served(q))
    }

    ghost predicate Served(q: nat) {
      exists w :: 0 <= w < |home| && home[w] == q
    }

    function Edges(): Edges { DependencyEdges(parents) }
  }

  datatype Worker = Idle | Assigned(id: Id) | Running(id: Id, piece: nat) | Ran(id: Id) {
    predicate Holds(task: Id) { !Idle? && id == task }
  }

  datatype Pc = Scheduling | Enqueueing(id: Id) | Waiting | Finished

  datatype Event = Entered(id: Id, count: nat) | Started(id: Id, piece: nat) | Ended(id: Id, piece: nat) | Called(id: Id)

  datatype State = State(it: Iteration, queues: seq<Queue>, workers: seq<Worker>, doneq: seq<Id>, pc: Pc, log: seq<Event>)

  // What may happen next; w is the worker that does it.
  datatype Move = Take(w: nat) | Fetch(w: nat) | Run(w: nat) | Report(w: nat) | PopTask | EnterTask(entry: Entry) | Wait | Drain

  predicate CanStart(c: Config) {
    Reset(c.parents).ready != []
  }

  function Start(c: Config): State {
    State(Reset(c.parents), seq(c.queueCount, _ => Queue([], map[])), seq(|c.home|, _ => Idle), [], Scheduling, [])
  }

  predicate Enabled(c: Config, s: State, m: Move)
    requires |s.workers| == |c.home|
    requires |s.queues| == c.queueCount && forall w :: 0 <= w < |c.home| ==> c.home[w] < c.queueCount
  {
    match m
    case Take(w) => w < |s.workers| && s.workers[w].Idle? && s.queues[c.home[w]].fifo != []
    case Fetch(w) => w < |s.workers| && s.workers[w].Assigned?
    case Run(w) => w < |s.workers| && s.workers[w].Running?
    case Report(w) => w < |s.workers| && s.workers[w].Ran?
    case PopTask => s.pc == Scheduling && s.it.ready != []
    case EnterTask(entry) => s.pc.Enqueueing? && (entry.InPieces? ==> 1 <= entry.count <= c.maxPieces)
    case Wait => s.pc == Scheduling && s.it.ready == []
    case Drain => s.pc == Waiting && s.doneq != []
  }

  function Pieces(entry: Entry): nat {
    if entry.Whole? then 1 else entry.count
  }

  predicate WellShaped(c: Config, s: State) {
    && |s.workers| == |c.home| && |s.queues| == c.queueCount && |s.it.deps| == |c.parents| == |c.route|
    && (forall w :: 0 <= w < |c.home| ==> c.home[w] < c.queueCount)
    && (forall id :: 0 <= id < |c.route| ==> c.route[id] < c.queueCount)
    && (s.pc.Enqueueing? ==> s.pc.id < |c.parents|)
  }

  function Apply(c: Config, s: State, m: Move): State
    requires WellShaped(c, s) && Enabled(c, s, m)
  {
    match m
    case Take(w) =>
      var q := s.queues[c.home[w]];
      s.(workers := s.workers[w := Assigned(q.fifo[0])], queues := s.queues[c.home[w] := q.Assign()])
    case Fetch(w) =>
      var q, id := s.queues[c.home[w]], s.workers[w].id;
      s.(workers := s.workers[w := Running(id, q.NextPiece(id))], queues := s.queues[c.home[w] := q.Fetch(id)],
         log := s.log + [Started(id, q.NextPiece(id))])
    case Run(w) =>
      s.(workers := s.workers[w := Ran(s.workers[w].id)], log := s.log + [Ended(s.workers[w].id, s.workers[w].piece)])
    case Report(w) =>
      var q, id := s.queues[c.home[w]], s.workers[w].id;
      var r := s.(workers := s.workers[w := Idle], queues := s.queues[c.home[w] := q.Finish(id)]);
      if q.Completes(id) then r.(doneq := s.doneq + [id], log := s.log + [Called(id)]) else r
    case PopTask =>
      s.(it := Pop(s.it), pc := Enqueueing(s.it.ready[|s.it.ready| - 1]))
    case EnterTask(entry) =>
      var id := s.pc.id;
      var j := c.route[id];
      s.(queues := s.queues[j := s.queues[j].Enqueue(id, entry)], pc := Scheduling, log := s.log + [Entered(id, Pieces(entry))])
    case Wait =>
      s.(pc := Waiting)
    case Drain =>
      var it := FinishAll(c.parents, s.it, s.doneq);
      s.(it := it, doneq := [], pc := if Completed(it) then Finished else Scheduling)
  }

  // ------------------------------------------------------- one task's affairs

  function Holders(workers: seq<Worker>, id: Id): set<nat> {
    set w | 0 <= w < |workers| && workers[w].Holds(id)
  }

  function Takers(workers: seq<Worker>, id: Id): set<nat> {
    set w | 0 <= w < |workers| && workers[w] == Assigned(id)
  }

  // An unsplit task counts as one piece.
  function Size(q: Queue, id: Id): nat {
    if id in q.splits then q.splits[id].size else 1
  }

  function Pending(q: Queue, id: Id): nat {
    if id in q.splits then q.splits[id].pending else if id in q.fifo then 1 else 0
  }

  // Pieces that were fetched.
  function Fetched(q: Queue, workers: seq<Worker>, id: Id): int {
    Size(q, id) - Pending(q, id) - |Takers(workers, id)|
  }

  predicate AwayFrom(q: Queue, id: Id) {
    id !in q.fifo && id !in q.splits
  }

  ghost predicate Absent(s: State, id: Id) {
    && (forall j :: 0 <= j < |s.queues| ==> AwayFrom(s.queues[j], id))
    && Holders(s.workers, id) == {}
  }

  // A task in flight: its counters and the workers that hold it agree.
  ghost predicate Counted(q: Queue, workers: seq<Worker>, id: Id) {
    ghost var holders, takers := |Holders(workers, id)|, |Takers(workers, id)|;
    && Size(q, id) >= 1 && Pending(q, id) + holders >= 1
    && (id in q.fifo <==> Pending(q, id) > 0)
    && (if id in q.splits then q.splits[id].running == holders && q.splits[id].next == Fetched(q, workers, id)
        else Pending(q, id) + holders == 1)
  }

  predicate RunOf(w: Worker, id: Id) {
    w.Running? && w.id == id
  }

  // Workers run pieces that were fetched, no two the same.
  ghost predicate PiecesApart(q: Queue, workers: seq<Worker>, id: Id) {
    && (forall w :: 0 <= w < |workers| && RunOf(workers[w], id) ==> workers[w].piece < Fetched(q, workers, id))
    && (forall v, w :: 0 <= v < w < |workers| && RunOf(workers[v], id) && RunOf(workers[w], id) ==>
                         workers[v].piece != workers[w].piece)
  }

  ghost predicate IsRun(workers: seq<Worker>, id: Id, p: nat) {
    exists w :: 0 <= w < |workers| && workers[w] == Running(id, p)
  }

  // The log tells of a task in flight what has happened to it so far.
  ghost predicate Logged(q: Queue, workers: seq<Worker>, log: seq<Event>, id: Id) {
    && (forall n: nat :: Entered(id, n) in log <==> n == Size(q, id))
    && (forall p: nat :: Started(id, p) in log <==> p < Fetched(q, workers, id))
    && (forall p: nat :: Ended(id, p) in log <==> p < Fetched(q, workers, id) && !IsRun(workers, id, p))
    && Called(id) !in log
  }

  ghost predicate Flying(c: Config, s: State, id: Id)
    requires WellShaped(c, s) && id < |c.parents|
  {
    var q := s.queues[c.route[id]];
    && (forall j :: 0 <= j < |s.queues| && j != c.route[id] ==> AwayFrom(s.queues[j], id))
    && (forall w :: w in Holders(s.workers, id) ==> c.home[w] == c.route[id])
    && Counted(q, s.workers, id) && PiecesApart(q, s.workers, id) && Logged(q, s.workers, s.log, id)
  }

  ghost predicate Silent(log: seq<Event>, id: Id) {
    forall e :: e in log ==> e.id != id
  }

  // All pieces of the task, and no others, have started and ended, and the
  // scheduler was called back.
  ghost predicate RanWhole(log: seq<Event>, id: Id, n: nat) {
    && (forall k: nat :: Entered(id, k) in log <==> k == n)
    && (forall p: nat :: Started(id, p) in log <==> p < n)
    && (forall p: nat :: Ended(id, p) in log <==> p < n)
    && Called(id) in log && n >= 1
  }

  predicate InFlight(s: State, id: Id) {
    id in s.it.issued && id !in s.doneq && s.pc != Enqueueing(id)
  }

  predicate Over(s: State, id: Id) {
    id in s.doneq || id in Done(s.it)
  }

  ghost predicate TaskInv(c: Config, s: State, id: Id)
    requires WellShaped(c, s)
  {
    if InFlight(s, id) then id < |c.parents| && Flying(c, s, id)
    else Absent(s, id) && (if Over(s, id) then exists n: nat :: RanWhole(s.log, id, n) else Silent(s.log, id))
  }

  // ------------------------------------------------------------- the history

  // What must have happened before an event.
  ghost predicate Justified(c: Config, past: seq<Event>, e: Event) {
    match e
    case Entered(t, n) =>
      && n >= 1 && Silent(past, t) && t < |c.parents|
      && (forall d :: Reaches(c.Edges(), d, t) ==> Called(d) in past)
    case Started(t, p) => exists n: nat :: Entered(t, n) in past && p < n
    case Ended(t, p) => Started(t, p) in past
    case Called(t) => exists n: nat :: Entered(t, n) in past && forall p: nat :: p < n ==> Ended(t, p) in past
  }

  // Every event is justified by what came before, and nothing happens twice.
  ghost predicate History(c: Config, log: seq<Event>) {
    forall i :: 0 <= i < |log| ==> Justified(c, log[..i], log[i]) && log[i] !in log[..i]
  }

  ghost predicate SchedulerInv(c: Config, s: State) {
    && Sound(c.parents, s.it)
    && Elements(s.doneq) <= s.it.issued
    && (forall i, j :: 0 <= i < j < |s.doneq| ==> s.doneq[i] != s.doneq[j])
    && (s.pc.Enqueueing? ==> s.pc.id in s.it.issued && s.pc.id !in s.doneq)
    && (s.pc == Waiting ==> s.it.ready == [])
    && (s.pc == Finished <==> Completed(s.it))
  }

  ghost predicate NoDuplicates(queues: seq<Queue>) {
    forall j, a, b :: 0 <= j < |queues| && 0 <= a < b < |queues[j].fifo| ==> queues[j].fifo[a] != queues[j].fifo[b]
  }

  ghost predicate Inv(c: Config, s: State) {
    && c.Valid() && WellShaped(c, s) && SchedulerInv(c, s) && NoDuplicates(s.queues) && History(c, s.log)
    && forall id: Id :: TaskInv(c, s, id)
  }

  // ---------------------------------------------------------- tasks left alone

  ghost predicate SameIn(q: Queue, q': Queue, id: Id) {
    && (id in q.fifo <==> id in q'.fifo) && (id in q.splits <==> id in q'.splits)
    && (id in q.splits ==> q.splits[id] == q'.splits[id])
  }

  ghost predicate SameWorkers(ws: seq<Worker>, ws': seq<Worker>, id: Id) {
    |ws| == |ws'| && forall w :: 0 <= w < |ws| && (ws[w].Holds(id) || ws'[w].Holds(id)) ==> ws[w] == ws'[w]
  }

  ghost predicate SameLog(log: seq<Event>, log': seq<Event>, id: Id) {
    forall e: Event :: e.id == id ==> (e in log <==> e in log')
  }

  ghost predicate SameFor(s: State, s': State, id: Id) {
    && SameWorkers(s.workers, s'.workers, id) && SameLog(s.log, s'.log, id)
    && |s.queues| == |s'.queues| && (forall j :: 0 <= j < |s.queues| ==> SameIn(s.queues[j], s'.queues[j], id))
    && (InFlight(s, id) <==> InFlight(s', id)) && (Over(s, id) <==> Over(s', id))
  }

  lemma SameHolders(ws: seq<Worker>, ws': seq<Worker>, id: Id)
    requires SameWorkers(ws, ws', id)
    ensures Holders(ws, id) == Holders(ws', id) && Takers(ws, id) == Takers(ws', id)
    ensures forall p :: IsRun(ws, id, p) <==> IsRun(ws', id, p)
  {
    forall w | 0 <= w < |ws|
      ensures ws[w].Holds(id) <==> ws'[w].Holds(id)
      ensures ws[w] == Assigned(id) <==> ws'[w] == Assigned(id)
      ensures forall p :: ws[w] == Running(id, p) <==> ws'[w] == Running(id, p)
    {
      assert ws[w] == Assigned(id) || RunOf(ws[w], id) ==> ws[w].Holds(id);
      assert ws'[w] == Assigned(id) || RunOf(ws'[w], id) ==> ws'[w].Holds(id);
    }
    forall p ensures IsRun(ws, id, p) <==> IsRun(ws', id, p) {
      if IsRun(ws, id, p) {
        var w :| 0 <= w < |ws| && ws[w] == Running(id, p);
        assert ws'[w] == Running(id, p);
      }
      if IsRun(ws', id, p) {
        var w :| 0 <= w < |ws'| && ws'[w] == Running(id, p);
        assert ws[w] == Running(id, p);
      }
    }
  }

  lemma SameQueue(q: Queue, q': Queue, ws: seq<Worker>, ws': seq<Worker>, log: seq<Event>, log': seq<Event>, id: Id)
    requires SameWorkers(ws, ws', id) && SameIn(q, q', id) && SameLog(log, log', id)
    requires Counted(q, ws, id) && PiecesApart(q, ws, id) && Logged(q, ws, log, id)
    ensures Counted(q', ws', id) && PiecesApart(q', ws', id) && Logged(q', ws', log', id)
  {
    SameHolders(ws, ws', id);
    hide IsRun, Holders, Takers;
    forall w | 0 <= w < |ws| && RunOf(ws'[w], id) ensures ws[w] == ws'[w] {
      assert ws'[w].Holds(id);
    }
    forall e: Event | e.id == id ensures e in log <==> e in log' {
    }
  }

  lemma TaskFrame(c: Config, s: State, s': State, id: Id)
    requires WellShaped(c, s) && WellShaped(c, s') && TaskInv(c, s, id) && SameFor(s, s', id)
    ensures TaskInv(c, s', id)
  {
    SameHolders(s.workers, s'.workers, id);
    hide Counted, PiecesApart, Logged, Holders, Takers, IsRun, InFlight, Over;
    if InFlight(s, id) {
      var j := c.route[id];
      SameQueue(s.queues[j], s'.queues[j], s.workers, s'.workers, s.log, s'.log, id);
      assert Flying(c, s', id);
    } else if Over(s, id) {
      var n: nat :| RanWhole(s.log, id, n);
      assert RanWhole(s'.log, id, n);
    }
  }

  // --------------------------------------------------- the task that a move is about

  lemma WorkerChanges(ws: seq<Worker>, w: nat, x: Worker, id: Id)
    requires w < |ws|
    ensures ghost var ws' := ws[w := x];
            && Holders(ws', id) == (if x.Holds(id) then Holders(ws, id) + {w} else Holders(ws, id) - {w})
            && Takers(ws', id) == (if x == Assigned(id) then Takers(ws, id) + {w} else Takers(ws, id) - {w})
    ensures w in Holders(ws, id) <==> ws[w].Holds(id)
    ensures w in Takers(ws, id) <==> ws[w] == Assigned(id)
    ensures Takers(ws, id) <= Holders(ws, id)
  {
  }

  // Who runs what after worker w turns to x.
  lemma RunsChange(ws: seq<Worker>, w: nat, x: Worker, id: Id, p: nat)
    requires w < |ws|
    ensures x == Running(id, p) ==> IsRun(ws[w := x], id, p)
    ensures x != Running(id, p) && ws[w] != Running(id, p) ==> (IsRun(ws[w := x], id, p) <==> IsRun(ws, id, p))
  {
    var ws' := ws[w := x];
    if x == Running(id, p) { assert ws'[w] == Running(id, p); }
    if IsRun(ws, id, p) && ws[w] != Running(id, p) {
      var v :| 0 <= v < |ws| && ws[v] == Running(id, p);
      assert ws'[v] == Running(id, p);
    }
    if IsRun(ws', id, p) && x != Running(id, p) {
      var v :| 0 <= v < |ws'| && ws'[v] == Running(id, p);
      assert ws[v] == Running(id, p);
    }
  }

  ghost predicate Tracks(q: Queue, ws: seq<Worker>, log: seq<Event>, id: Id) {
    Counted(q, ws, id) && PiecesApart(q, ws, id) && Logged(q, ws, log, id)
  }

  ghost predicate NoRepeats(fifo: seq<Id>) {
    forall a, b :: 0 <= a < b < |fifo| ==> fifo[a] != fifo[b]
  }

  lemma Runner(ws: seq<Worker>, id: Id, p: nat) returns (v: nat)
    requires IsRun(ws, id, p)
    ensures v < |ws| && RunOf(ws[v], id) && ws[v].piece == p && ws[v] == Running(id, p) && v in Holders(ws, id)
  {
    var u :| 0 <= u < |ws| && ws[u] == Running(id, p);
    v := u;
  }

  lemma AssignsHead(q: Queue)
    requires q.fifo != [] && NoRepeats(q.fifo) && Pending(q, q.fifo[0]) > 0
    ensures ghost var t, q' := q.fifo[0], q.Assign();
            && Size(q', t) == Size(q, t) && Pending(q', t) == Pending(q, t) - 1
            && (t in q'.fifo <==> Pending(q', t) > 0)
            && (t in q.splits <==> t in q'.splits)
            && (t in q.splits ==> q'.splits[t].running == q.splits[t].running + 1 && q'.splits[t].next == q.splits[t].next)
            && NoRepeats(q'.fifo) && forall id :: id != t ==> SameIn(q, q', id)
  {
    var t := q.fifo[0];
    assert q.fifo == [t] + q.fifo[1..];
    assert t !in q.fifo[1..];
  }

  lemma TakeTracks(q: Queue, ws: seq<Worker>, log: seq<Event>, w: nat)
    requires w < |ws| && ws[w].Idle? && q.fifo != [] && NoRepeats(q.fifo)
    requires Tracks(q, ws, log, q.fifo[0])
    ensures Tracks(q.Assign(), ws[w := Assigned(q.fifo[0])], log, q.fifo[0])
  {
    var t, q' := q.fifo[0], q.Assign();
    var ws' := ws[w := Assigned(t)];
    TakeCounts(q, ws, log, w, t);
    hide Fetched, Counted, Queue.Assign, IsRun, NoRepeats, Size;
    SizeAssigned(q);
    forall p: nat ensures IsRun(ws', t, p) <==> IsRun(ws, t, p) {
      RunsChange(ws, w, Assigned(t), t, p);
    }
    forall v | 0 <= v < |ws'| && RunOf(ws'[v], t) ensures ws[v] == ws'[v] {
    }
  }

  lemma SizeAssigned(q: Queue)
    requires q.fifo != []
    ensures Size(q.Assign(), q.fifo[0]) == Size(q, q.fifo[0])
  {
  }

  lemma TakeCounts(q: Queue, ws: seq<Worker>, log: seq<Event>, w: nat, t: Id)
    requires w < |ws| && ws[w].Idle? && q.fifo != [] && NoRepeats(q.fifo) && t == q.fifo[0]
    requires Tracks(q, ws, log, t)
    ensures Fetched(q.Assign(), ws[w := Assigned(t)], t) == Fetched(q, ws, t)
    ensures Counted(q.Assign(), ws[w := Assigned(t)], t)
  {
    hide Pending, Size, Queue.Assign, Holders, Takers, NoRepeats, PiecesApart, Logged;
    InFifoPending(q, ws, log, t);
    AssignsHead(q);
    WorkerChanges(ws, w, Assigned(t), t);
  }

  lemma FetchTracks(q: Queue, ws: seq<Worker>, log: seq<Event>, w: nat, t: Id)
    requires w < |ws| && ws[w] == Assigned(t) && Tracks(q, ws, log, t)
    ensures ghost var p := q.NextPiece(t);
            && Tracks(q.Fetch(t), ws[w := Running(t, p)], log + [Started(t, p)], t)
            && p == Fetched(q, ws, t) < Size(q, t)
  {
    var p, q' := q.NextPiece(t), q.Fetch(t);
    var x := Running(t, p);
    var ws', log' := ws[w := x], log + [Started(t, p)];
    WorkerChanges(ws, w, x, t);
    TakerIsCounted(q, ws, t, w);
    assert Holders(ws', t) == Holders(ws, t);
    assert |Takers(ws', t)| == |Takers(ws, t)| - 1;
    assert p == Fetched(q, ws, t) && Fetched(q', ws', t) == p + 1;
    hide Holders, Takers;
    forall k: nat ensures IsRun(ws', t, k) <==> k == p || IsRun(ws, t, k) {
      RunsChange(ws, w, x, t, k);
    }
    forall k: nat ensures Ended(t, k) in log' <==> Ended(t, k) in log {
    }
    forall k: nat ensures Started(t, k) in log' <==> Started(t, k) in log || k == p {
    }
    assert !IsRun(ws, t, p) by {
      if IsRun(ws, t, p) { var v := Runner(ws, t, p); }
    }
    hide IsRun;
    forall v | 0 <= v < |ws'| && v != w ensures ws[v] == ws'[v] {
    }
  }

  // Whoever is about to fetch keeps a piece from being the last one fetched.
  lemma TakerIsCounted(q: Queue, ws: seq<Worker>, t: Id, w: nat)
    requires w in Takers(ws, t) && Counted(q, ws, t)
    ensures |Takers(ws, t)| >= 1
    ensures t !in q.splits ==> |Takers(ws, t)| == 1 && Pending(q, t) == 0
  {
    var one := {w};
    assert one <= Takers(ws, t);
    SubsetSize(one, Takers(ws, t));
    assert Takers(ws, t) <= Holders(ws, t);
    SubsetSize(Takers(ws, t), Holders(ws, t));
  }

  lemma {:induction false} SubsetSize(a: set<nat>, b: set<nat>)
    requires a <= b
    ensures |a| <= |b|
  {
    if a != {} {
      var x :| x in a;
      SubsetSize(a - {x}, b - {x});
    }
  }

  lemma RunTracks(q: Queue, ws: seq<Worker>, log: seq<Event>, w: nat, t: Id, p: nat)
    requires w < |ws| && ws[w] == Running(t, p) && Tracks(q, ws, log, t)
    ensures Tracks(q, ws[w := Ran(t)], log + [Ended(t, p)], t)
    ensures Started(t, p) in log && Ended(t, p) !in log
  {
    RunCounts(q, ws, w, t, p);
    hide Fetched, Counted, Size;
    RunEnds(q, ws, w, t, p);
    RunLogs(q, ws, ws[w := Ran(t)], log, w, t, p);
  }

  lemma RunCounts(q: Queue, ws: seq<Worker>, w: nat, t: Id, p: nat)
    requires w < |ws| && ws[w] == Running(t, p) && Counted(q, ws, t)
    ensures Fetched(q, ws[w := Ran(t)], t) == Fetched(q, ws, t) && Counted(q, ws[w := Ran(t)], t)
  {
    hide Holders, Takers, Pending, Size;
    WorkerChanges(ws, w, Ran(t), t);
    assert Holders(ws[w := Ran(t)], t) == Holders(ws, t) && Takers(ws[w := Ran(t)], t) == Takers(ws, t);
  }

  lemma RunLogs(q: Queue, ws: seq<Worker>, ws': seq<Worker>, log: seq<Event>, w: nat, t: Id, p: nat)
    requires w < |ws| && ws[w] == Running(t, p) && PiecesApart(q, ws, t) && Logged(q, ws, log, t) && ws' == ws[w := Ran(t)]
    requires Fetched(q, ws', t) == Fetched(q, ws, t)
    requires forall k: nat :: IsRun(ws', t, k) <==> k != p && IsRun(ws, t, k)
    ensures PiecesApart(q, ws', t) && Logged(q, ws', log + [Ended(t, p)], t)
    ensures Started(t, p) in log && Ended(t, p) !in log
  {
    var log' := log + [Ended(t, p)];
    assert RunOf(ws[w], t) && IsRun(ws, t, p);
    hide Fetched, IsRun, Size;
    forall e: Event ensures e in log' <==> e in log || e == Ended(t, p) {
    }
    forall v | 0 <= v < |ws'| && RunOf(ws'[v], t) ensures ws[v] == ws'[v] {
    }
  }

  lemma RunEnds(q: Queue, ws: seq<Worker>, w: nat, t: Id, p: nat)
    requires w < |ws| && ws[w] == Running(t, p) && PiecesApart(q, ws, t)
    ensures forall k: nat :: IsRun(ws[w := Ran(t)], t, k) <==> k != p && IsRun(ws, t, k)
  {
    var ws' := ws[w := Ran(t)];
    hide Fetched, Holders;
    assert RunOf(ws[w], t);
    forall v | 0 <= v < |ws'| && RunOf(ws'[v], t) ensures ws'[v].piece != p {
      assert v != w && RunOf(ws[v], t);
    }
    forall k: nat ensures IsRun(ws', t, k) <==> k != p && IsRun(ws, t, k) {
      RunsChange(ws, w, Ran(t), t, k);
      if IsRun(ws', t, p) { var v := Runner(ws', t, p); }
    }
  }

  lemma ReportTracks(q: Queue, ws: seq<Worker>, log: seq<Event>, w: nat, t: Id)
    requires w < |ws| && ws[w] == Ran(t) && Tracks(q, ws, log, t) && !q.Completes(t)
    ensures Tracks(q.Finish(t), ws[w := Idle], log, t)
  {
    hide Counted, PiecesApart, Logged;
    ReportFrames(q, ws, w, t);
    ReportCounted(q, ws, w, t);
    StillApart(q, ws, log, w, t);
  }

  // What a piece less leaves as it was.
  lemma ReportFrames(q: Queue, ws: seq<Worker>, w: nat, t: Id)
    requires w < |ws| && ws[w] == Ran(t) && Counted(q, ws, t) && !q.Completes(t)
    ensures ghost var q', ws' := q.Finish(t), ws[w := Idle];
            && Size(q', t) == Size(q, t) && Fetched(q', ws', t) == Fetched(q, ws, t) && Pending(q', t) == Pending(q, t)
  {
    var ws' := ws[w := Idle];
    WorkerChanges(ws, w, Idle, t);
    assert Takers(ws', t) == Takers(ws, t);
    hide Holders, Takers;
  }

  lemma ReportCounted(q: Queue, ws: seq<Worker>, w: nat, t: Id)
    requires w < |ws| && ws[w] == Ran(t) && Counted(q, ws, t) && !q.Completes(t)
    requires Fetched(q.Finish(t), ws[w := Idle], t) == Fetched(q, ws, t)
    ensures Counted(q.Finish(t), ws[w := Idle], t)
  {
    var ws' := ws[w := Idle];
    WorkerChanges(ws, w, Idle, t);
    assert |Holders(ws', t)| == |Holders(ws, t)| - 1;
    hide Holders, Takers, Fetched;
  }

  lemma StillApart(q: Queue, ws: seq<Worker>, log: seq<Event>, w: nat, t: Id)
    requires w < |ws| && ws[w] == Ran(t) && PiecesApart(q, ws, t) && Logged(q, ws, log, t)
    requires ghost var q', ws' := q.Finish(t), ws[w := Idle];
             Size(q', t) == Size(q, t) && Fetched(q', ws', t) == Fetched(q, ws, t)
    ensures PiecesApart(q.Finish(t), ws[w := Idle], t) && Logged(q.Finish(t), ws[w := Idle], log, t)
  {
    hide IsRun, Fetched, Size;
    var ws' := ws[w := Idle];
    forall k: nat ensures IsRun(ws', t, k) <==> IsRun(ws, t, k) {
      RunsChange(ws, w, Idle, t, k);
    }
    forall v | 0 <= v < |ws'| && RunOf(ws'[v], t) ensures ws[v] == ws'[v] {
    }
  }

  lemma ReportCompletes(q: Queue, ws: seq<Worker>, log: seq<Event>, w: nat, t: Id)
    requires w < |ws| && ws[w] == Ran(t) && Tracks(q, ws, log, t) && q.Completes(t)
    ensures RanWhole(log + [Called(t)], t, Size(q, t)) && Called(t) !in log
    ensures AwayFrom(q.Finish(t), t) && Holders(ws[w := Idle], t) == {}
  {
    WorkerChanges(ws, w, Idle, t);
    var ws', log' := ws[w := Idle], log + [Called(t)];
    var one := {w};
    SubsetSize(one, Holders(ws, t));
    assert |Holders(ws', t)| == |Holders(ws, t)| - 1 == 0;
    assert Holders(ws, t) == {w} && Takers(ws, t) == {};
    forall k: nat ensures !IsRun(ws, t, k) {
      if IsRun(ws, t, k) { var v := Runner(ws, t, k); }
    }
    hide Holders, Takers, IsRun;
    assert Fetched(q, ws, t) == Size(q, t);
    forall e: Event | e != Called(t) ensures e in log' <==> e in log {
    }
  }

  lemma EnterTracks(q: Queue, ws: seq<Worker>, log: seq<Event>, t: Id, entry: Entry)
    requires AwayFrom(q, t) && Holders(ws, t) == {} && Silent(log, t) && Pieces(entry) >= 1
    ensures Tracks(q.Enqueue(t, entry), ws, log + [Entered(t, Pieces(entry))], t)
  {
    var q', log' := q.Enqueue(t, entry), log + [Entered(t, Pieces(entry))];
    assert q'.fifo[|q.fifo|] == t;
    assert Takers(ws, t) == {} by {
      assert Takers(ws, t) <= Holders(ws, t);
    }
    assert Fetched(q', ws, t) == 0;
    forall v | 0 <= v < |ws| ensures !RunOf(ws[v], t) {
      assert v in Holders(ws, t) <==> ws[v].Holds(t);
    }
    hide Holders, Takers, IsRun;
    forall e: Event | e.id == t ensures e in log' <==> e == Entered(t, Pieces(entry)) {
    }
  }

  // ------------------------------------------------------- every step keeps it all

  lemma Grown(c: Config, log: seq<Event>, e: Event)
    requires History(c, log) && Justified(c, log, e) && e !in log
    ensures History(c, log + [e])
  {
    var log' := log + [e];
    hide Justified;
    forall i | 0 <= i < |log'| ensures Justified(c, log'[..i], log'[i]) && log'[i] !in log'[..i] {
      assert log'[..i] == log[..i];
      if i == |log| {
        assert log[..i] == log;
      }
    }
  }

  // A task that some queue or worker knows is in flight, and it is at home there.
  lemma KnownIsFlying(c: Config, s: State, id: Id)
    requires Inv(c, s) && !Absent(s, id)
    ensures id < |c.parents| && InFlight(s, id)
    ensures Tracks(s.queues[c.route[id]], s.workers, s.log, id) && !Over(s, id)
    ensures forall j :: 0 <= j < |s.queues| && !AwayFrom(s.queues[j], id) ==> j == c.route[id]
    ensures forall w :: w in Holders(s.workers, id) ==> c.home[w] == c.route[id]
  {
    assert TaskInv(c, s, id);
    hide Counted, PiecesApart, Logged, Absent;
    assert Flying(c, s, id);
  }

  // s' differs from s in one queue, one worker and the log, about one task only.
  ghost predicate Touches(s: State, s': State, t: Id, j: nat, w: nat) {
    && |s.workers| == |s'.workers| && |s.queues| == |s'.queues|
    && (forall v :: 0 <= v < |s.workers| && v != w ==> s.workers[v] == s'.workers[v])
    && (w < |s.workers| ==> (s.workers[w].Idle? || s.workers[w].id == t) && (s'.workers[w].Idle? || s'.workers[w].id == t))
    && (forall i :: 0 <= i < |s.queues| && i != j ==> s.queues[i] == s'.queues[i])
    && (j < |s.queues| ==> forall id :: id != t ==> SameIn(s.queues[j], s'.queues[j], id))
    && (forall id :: id != t ==> SameLog(s.log, s'.log, id))
  }

  lemma OthersSame(s: State, s': State, t: Id, j: nat, w: nat, id: Id)
    requires Touches(s, s', t, j, w) && id != t
    requires (InFlight(s, id) <==> InFlight(s', id)) && (Over(s, id) <==> Over(s', id))
    ensures SameFor(s, s', id)
  {
    forall i | 0 <= i < |s.queues| ensures SameIn(s.queues[i], s'.queues[i], id) {
    }
  }

  lemma OneTaskMoved(c: Config, s: State, s': State, t: Id, j: nat, w: nat)
    requires Inv(c, s) && WellShaped(c, s') && Touches(s, s', t, j, w)
    requires forall id :: id != t ==> (InFlight(s, id) <==> InFlight(s', id)) && (Over(s, id) <==> Over(s', id))
    requires TaskInv(c, s', t) && SchedulerInv(c, s') && NoDuplicates(s'.queues) && History(c, s'.log)
    ensures Inv(c, s')
  {
    hide Touches, InFlight, Over, SchedulerInv, NoDuplicates, History, TaskInv;
    forall id: Id ensures TaskInv(c, s', id) {
      if id != t {
        OthersSame(s, s', t, j, w, id);
        TaskFrame(c, s, s', id);
      }
    }
  }

  lemma QueueAt(queues: seq<Queue>, j: nat)
    requires NoDuplicates(queues) && j < |queues|
    ensures NoRepeats(queues[j].fifo)
  {
  }

  lemma QueueSet(queues: seq<Queue>, j: nat, q: Queue)
    requires NoDuplicates(queues) && j < |queues| && NoRepeats(q.fifo)
    ensures NoDuplicates(queues[j := q])
  {
  }

  lemma SchedulerUntouched(c: Config, s: State, s': State)
    requires Inv(c, s) && s'.it == s.it && s'.pc == s.pc && s'.doneq == s.doneq
    ensures SchedulerInv(c, s') && (|s'.workers| == |s.workers| && |s'.queues| == |s.queues| ==> WellShaped(c, s'))
    ensures forall id :: (InFlight(s, id) <==> InFlight(s', id)) && (Over(s, id) <==> Over(s', id))
    ensures NoDuplicates(s.queues) && History(c, s.log) && WellShaped(c, s)
  {
    hide TaskInv;
  }

  lemma TouchesOne(s: State, s': State, t: Id, j: nat, q: Queue, w: nat, x: Worker)
    requires w < |s.workers| && j < |s.queues|
    requires s'.workers == s.workers[w := x] && (x.Idle? || x.id == t)
    requires s.workers[w].Idle? || s.workers[w].id == t
    requires s'.queues == s.queues[j := q] && forall id :: id != t ==> SameIn(s.queues[j], q, id)
    requires s'.log == s.log || exists e: Event :: s'.log == s.log + [e] && e.id == t
    ensures Touches(s, s', t, j, w)
  {
    hide SameIn;
    forall id | id != t ensures SameLog(s.log, s'.log, id) {
    }
  }

  // What workers do to a task in flight that stays in flight.
  lemma WorkerMoved(c: Config, s: State, s': State, t: Id, w: nat, x: Worker, q: Queue)
    requires Inv(c, s) && !Absent(s, t) && w < |s.workers| == |c.home|
    requires t < |c.route| && c.home[w] == c.route[t] < |s.queues|
    requires s'.it == s.it && s'.pc == s.pc && s'.doneq == s.doneq
    requires s'.workers == s.workers[w := x] && s'.queues == s.queues[c.route[t] := q]
    requires (x.Idle? || x.id == t) && (s.workers[w].Idle? || s.workers[w].id == t)
    requires NoRepeats(q.fifo) && forall id :: id != t ==> SameIn(s.queues[c.route[t]], q, id)
    requires s'.log == s.log || exists e: Event :: s'.log == s.log + [e] && e.id == t
    requires History(c, s'.log) && Tracks(q, s'.workers, s'.log, t)
    ensures Inv(c, s')
  {
    var j := c.route[t];
    KnownIsFlying(c, s, t);
    SchedulerUntouched(c, s, s');
    QueueSet(s.queues, j, q);
    TouchesOne(s, s', t, j, q, w, x);
    FlyingMoved(c, s, s', t, w, x, q);
    assert TaskInv(c, s', t) by { hide Flying, Holders, Inv, Tracks, Touches, History, NoDuplicates, SchedulerInv; }
    hide *;
    OneTaskMoved(c, s, s', t, j, w);
  }

  lemma FlyingMoved(c: Config, s: State, s': State, t: Id, w: nat, x: Worker, q: Queue)
    requires WellShaped(c, s) && WellShaped(c, s') && t < |c.parents| && w < |s.workers| && c.home[w] == c.route[t]
    requires s'.workers == s.workers[w := x] && s'.queues == s.queues[c.route[t] := q]
    requires forall j :: 0 <= j < |s.queues| && !AwayFrom(s.queues[j], t) ==> j == c.route[t]
    requires forall v :: v in Holders(s.workers, t) ==> c.home[v] == c.route[t]
    requires Tracks(q, s'.workers, s'.log, t)
    ensures Flying(c, s', t)
  {
    WorkerChanges(s.workers, w, x, t);
    hide Counted, PiecesApart, Logged, Holders, Takers, AwayFrom;
  }

  lemma TakeKeeps(c: Config, s: State, w: nat)
    requires Inv(c, s) && Enabled(c, s, Take(w))
    ensures Inv(c, Apply(c, s, Take(w)))
  {
    hide TaskInv, SchedulerInv, History, NoRepeats, Tracks, SameIn;
    var j := c.home[w];
    var q := s.queues[j];
    var t := q.fifo[0];
    assert !Absent(s, t) && !AwayFrom(s.queues[j], t);
    KnownIsFlying(c, s, t);
    QueueAt(s.queues, j);
    hide NoDuplicates, Absent;
    TakeTracks(q, s.workers, s.log, w);
    InFifoPending(q, s.workers, s.log, t);
    AssignsHead(q);
    hide Queue.Assign;
    WorkerMoved(c, s, Apply(c, s, Take(w)), t, w, Assigned(t), q.Assign());
  }

  lemma InFifoPending(q: Queue, ws: seq<Worker>, log: seq<Event>, t: Id)
    requires Tracks(q, ws, log, t) && t in q.fifo
    ensures Pending(q, t) > 0
  {
  }

  lemma HolderIsKnown(c: Config, s: State, w: nat)
    requires Inv(c, s) && w < |s.workers| && !s.workers[w].Idle?
    ensures ghost var t := s.workers[w].id;
            && !Absent(s, t) && t < |c.parents| && InFlight(s, t) && c.home[w] == c.route[t]
            && Tracks(s.queues[c.route[t]], s.workers, s.log, t) && NoRepeats(s.queues[c.route[t]].fifo)
            && History(c, s.log)
  {
    hide TaskInv, SchedulerInv, History, NoRepeats, Tracks;
    var t := s.workers[w].id;
    assert w in Holders(s.workers, t);
    assert !Absent(s, t);
    KnownIsFlying(c, s, t);
    QueueAt(s.queues, c.route[t]);
  }

  lemma FetchKeeps(c: Config, s: State, w: nat)
    requires Inv(c, s) && Enabled(c, s, Fetch(w))
    ensures Inv(c, Apply(c, s, Fetch(w)))
  {
    hide TaskInv, SchedulerInv, History, NoRepeats, Tracks, SameIn, NoDuplicates, Absent;
    var t := s.workers[w].id;
    HolderIsKnown(c, s, w);
    var q := s.queues[c.route[t]];
    var p := q.NextPiece(t);
    FetchTracks(q, s.workers, s.log, w, t);
    FetchFrames(q, t);
    FetchJustified(c, q, s.workers, s.log, t, p);
    Grown(c, s.log, Started(t, p));
    hide Queue.Fetch, Queue.NextPiece, Fetched, Size;
    WorkerMoved(c, s, Apply(c, s, Fetch(w)), t, w, Running(t, p), q.Fetch(t));
  }

  lemma FetchFrames(q: Queue, t: Id)
    ensures NoRepeats(q.fifo) ==> NoRepeats(q.Fetch(t).fifo) && NoRepeats(q.Finish(t).fifo)
    ensures forall id :: id != t ==> SameIn(q, q.Fetch(t), id) && SameIn(q, q.Finish(t), id) && SameIn(q, q, id)
  {
  }

  lemma FetchJustified(c: Config, q: Queue, ws: seq<Worker>, log: seq<Event>, t: Id, p: nat)
    requires Tracks(q, ws, log, t) && p == Fetched(q, ws, t) < Size(q, t)
    ensures Justified(c, log, Started(t, p)) && Started(t, p) !in log
  {
    assert Entered(t, Size(q, t)) in log;
  }

  lemma RunKeeps(c: Config, s: State, w: nat)
    requires Inv(c, s) && Enabled(c, s, Run(w))
    ensures Inv(c, Apply(c, s, Run(w)))
  {
    hide TaskInv, SchedulerInv, History, NoRepeats, Tracks, SameIn, NoDuplicates, Absent;
    var t, p := s.workers[w].id, s.workers[w].piece;
    HolderIsKnown(c, s, w);
    var q := s.queues[c.route[t]];
    RunTracks(q, s.workers, s.log, w, t, p);
    FetchFrames(q, t);
    Grown(c, s.log, Ended(t, p));
    assert s.queues == s.queues[c.route[t] := q];
    WorkerMoved(c, s, Apply(c, s, Run(w)), t, w, Ran(t), q);
  }

  lemma ReportKeeps(c: Config, s: State, w: nat)
    requires Inv(c, s) && Enabled(c, s, Report(w)) && !s.queues[c.home[w]].Completes(s.workers[w].id)
    ensures Inv(c, Apply(c, s, Report(w)))
  {
    hide TaskInv, SchedulerInv, History, NoRepeats, Tracks, SameIn, NoDuplicates, Absent;
    var t := s.workers[w].id;
    HolderIsKnown(c, s, w);
    var q := s.queues[c.route[t]];
    ReportTracks(q, s.workers, s.log, w, t);
    FetchFrames(q, t);
    hide Queue.Finish, Queue.Completes;
    WorkerMoved(c, s, Apply(c, s, Report(w)), t, w, Idle, q.Finish(t));
  }

  lemma CompleteKeeps(c: Config, s: State, w: nat)
    requires Inv(c, s) && Enabled(c, s, Report(w)) && s.queues[c.home[w]].Completes(s.workers[w].id)
    ensures Inv(c, Apply(c, s, Report(w)))
  {
    hide TaskInv, SchedulerInv, History, NoRepeats, Tracks, SameIn, NoDuplicates, Absent;
    var s', t := Apply(c, s, Report(w)), s.workers[w].id;
    HolderIsKnown(c, s, w);
    var j := c.route[t];
    var q := s.queues[j];
    ReportCompletes(q, s.workers, s.log, w, t);
    FetchFrames(q, t);
    CalledJustified(c, q, s.workers, s.log, t);
    Grown(c, s.log, Called(t));
    QueueSet(s.queues, j, q.Finish(t)) by { NoDuplicatesOf(c, s); }
    TouchesOne(s, s', t, j, q.Finish(t), w, Idle);
    KnownIsFlying(c, s, t);
    CompletedScheduler(c, s, s', t);
    hide Queue.Finish, Queue.Completes, Holders, Touches, InFlight, Over, RanWhole, Enabled, AwayFrom;
    Departed(s, s', t, j);
    OverTaskInv(c, s', t, Size(q, t));
    OneTaskMoved(c, s, s', t, j, w);
  }

  lemma NoDuplicatesOf(c: Config, s: State)
    requires Inv(c, s)
    ensures NoDuplicates(s.queues)
  {
    hide TaskInv, NoDuplicates;
  }

  lemma Departed(s: State, s': State, t: Id, j: nat)
    requires |s'.queues| == |s.queues| && forall i :: 0 <= i < |s.queues| && i != j ==> s'.queues[i] == s.queues[i]
    requires forall i :: 0 <= i < |s.queues| && !AwayFrom(s.queues[i], t) ==> i == j
    requires j < |s.queues| && AwayFrom(s'.queues[j], t) && Holders(s'.workers, t) == {}
    ensures Absent(s', t)
  {
    hide AwayFrom, Holders;
  }

  lemma OverTaskInv(c: Config, s: State, t: Id, n: nat)
    requires WellShaped(c, s) && !InFlight(s, t) && Over(s, t) && Absent(s, t) && RanWhole(s.log, t, n)
    ensures TaskInv(c, s, t)
  {
    hide RanWhole, Absent;
  }

  lemma CalledJustified(c: Config, q: Queue, ws: seq<Worker>, log: seq<Event>, t: Id)
    requires RanWhole(log + [Called(t)], t, Size(q, t)) && Called(t) !in log
    ensures Justified(c, log, Called(t))
  {
    var n := Size(q, t);
    assert Entered(t, n) in log + [Called(t)];
    forall p: nat | p < n ensures Ended(t, p) in log {
      assert Ended(t, p) in log + [Called(t)];
    }
  }

  lemma CompletedScheduler(c: Config, s: State, s': State, t: Id)
    requires Inv(c, s) && s'.it == s.it && s'.pc == s.pc && s'.doneq == s.doneq + [t] && InFlight(s, t)
    requires |s'.workers| == |s.workers| && |s'.queues| == |s.queues|
    ensures SchedulerInv(c, s') && WellShaped(c, s') && !InFlight(s', t) && Over(s', t)
    ensures forall id :: id != t ==> (InFlight(s, id) <==> InFlight(s', id)) && (Over(s, id) <==> Over(s', id))
  {
    hide TaskInv, Sound, Completed, NoDuplicates, History;
    assert Elements(s'.doneq) == Elements(s.doneq) + {t};
    assert forall id :: id in s'.doneq <==> id in s.doneq || id == t;
  }

  lemma EnterKeeps(c: Config, s: State, entry: Entry)
    requires Inv(c, s) && Enabled(c, s, EnterTask(entry))
    ensures Inv(c, Apply(c, s, EnterTask(entry)))
  {
    hide TaskInv, SchedulerInv, History, NoRepeats, Tracks, SameIn, NoDuplicates, Absent, Over, Silent;
    var s', t := Apply(c, s, EnterTask(entry)), s.pc.id;
    var j := c.route[t];
    var q := s.queues[j];
    EnteringFacts(c, s);
    EnterTracks(q, s.workers, s.log, t, entry);
    EnterFrames(q, t, entry);
    EnterJustified(c, s, Pieces(entry));
    Grown(c, s.log, Entered(t, Pieces(entry)));
    QueueSet(s.queues, j, q.Enqueue(t, entry));
    EnterTouches(s, s', t, j, q.Enqueue(t, entry), Pieces(entry), |s.workers|);
    EnterScheduler(c, s, s');
    hide Queue.Enqueue, Holders, Touches, InFlight, Enabled, AwayFrom;
    assert TaskInv(c, s', t) by { EnterFlying(c, s, s', t); }
    OneTaskMoved(c, s, s', t, j, |s.workers|);
  }

  // The task being entered is known to no queue and no worker, and to no event.
  lemma EnteringFacts(c: Config, s: State)
    requires Inv(c, s) && s.pc.Enqueueing?
    ensures ghost var t := s.pc.id;
            && t < |c.parents| && Silent(s.log, t) && Absent(s, t) && Holders(s.workers, t) == {}
            && AwayFrom(s.queues[c.route[t]], t) && NoRepeats(s.queues[c.route[t]].fifo)
            && NoDuplicates(s.queues) && History(c, s.log)
  {
    assert TaskInv(c, s, s.pc.id);
    hide History, NoDuplicates, AwayFrom, Holders, Silent;
    QueueAt(s.queues, c.route[s.pc.id]);
  }

  lemma EnterFrames(q: Queue, t: Id, entry: Entry)
    requires NoRepeats(q.fifo) && AwayFrom(q, t)
    ensures NoRepeats(q.Enqueue(t, entry).fifo)
    ensures forall id :: id != t ==> SameIn(q, q.Enqueue(t, entry), id)
  {
    assert forall id :: id in q.fifo + [t] <==> id in q.fifo || id == t;
  }

  lemma EnterTouches(s: State, s': State, t: Id, j: nat, q: Queue, n: nat, w: nat)
    requires j < |s.queues| && w == |s.workers| && s'.workers == s.workers && s'.queues == s.queues[j := q]
    requires forall id :: id != t ==> SameIn(s.queues[j], q, id)
    requires s'.log == s.log + [Entered(t, n)]
    ensures Touches(s, s', t, j, w)
  {
    hide SameIn;
    forall id | id != t ensures SameLog(s.log, s'.log, id) {
    }
  }

  lemma EnterScheduler(c: Config, s: State, s': State)
    requires Inv(c, s) && s.pc.Enqueueing? && s'.it == s.it && s'.pc == Scheduling && s'.doneq == s.doneq
    requires |s'.workers| == |s.workers| && |s'.queues| == |s.queues|
    ensures SchedulerInv(c, s') && WellShaped(c, s') && InFlight(s', s.pc.id)
    ensures forall id :: id != s.pc.id ==> (InFlight(s, id) <==> InFlight(s', id)) && (Over(s, id) <==> Over(s', id))
  {
    hide TaskInv, Sound;
  }

  lemma EnterFlying(c: Config, s: State, s': State, t: Id)
    requires WellShaped(c, s') && t < |c.parents| && |s'.queues| == |s.queues| && s'.workers == s.workers
    requires Absent(s, t) && InFlight(s', t)
    requires forall j :: 0 <= j < |s.queues| && j != c.route[t] ==> s'.queues[j] == s.queues[j]
    requires Tracks(s'.queues[c.route[t]], s'.workers, s'.log, t)
    ensures TaskInv(c, s', t)
  {
    hide Counted, PiecesApart, Logged, Holders, AwayFrom;
    assert Flying(c, s', t);
  }

  // All that the task depends on has called back.
  lemma EnterJustified(c: Config, s: State, n: nat)
    requires Inv(c, s) && s.pc.Enqueueing? && n >= 1
    ensures Justified(c, s.log, Entered(s.pc.id, n)) && Entered(s.pc.id, n) !in s.log
  {
    var t := s.pc.id;
    EnteringFacts(c, s);
    hide TaskInv, History, NoDuplicates, Absent;
    forall d | Reaches(c.Edges(), d, t) ensures Called(d) in s.log {
      IssuedNotPending(c, s, t);
      DependenciesDone(c.parents, s.it, d, t);
      DoneHasCalled(c, s, d);
    }
  }

  lemma IssuedNotPending(c: Config, s: State, t: Id)
    requires Inv(c, s) && t in s.it.issued
    ensures t !in s.it.pending && t < |c.parents| && Consistent(c.parents, s.it)
  {
    hide TaskInv, History, NoDuplicates;
  }

  lemma DoneHasCalled(c: Config, s: State, d: Id)
    requires Inv(c, s) && d in Done(s.it)
    ensures exists n: nat :: RanWhole(s.log, d, n)
    ensures Called(d) in s.log
  {
    assert TaskInv(c, s, d);
    hide History, NoDuplicates, Absent, Flying;
    assert Over(s, d) && !InFlight(s, d);
    var n: nat :| RanWhole(s.log, d, n);
  }

  // Moves that change nothing but what the scheduler has in mind.
  lemma SchedulerMoved(c: Config, s: State, s': State)
    requires Inv(c, s) && s'.queues == s.queues && s'.workers == s.workers && s'.log == s.log
    requires WellShaped(c, s') && SchedulerInv(c, s')
    requires forall id :: (InFlight(s, id) <==> InFlight(s', id)) && (Over(s, id) <==> Over(s', id))
    ensures Inv(c, s')
  {
    hide InFlight, Over, SchedulerInv, NoDuplicates, History, TaskInv, SameIn;
    forall id: Id ensures TaskInv(c, s', id) {
      forall j | 0 <= j < |s.queues| ensures SameIn(s.queues[j], s'.queues[j], id) {
        FetchFrames(s.queues[j], id + 1);
      }
      TaskFrame(c, s, s', id);
    }
  }

  lemma SchedulerOf(c: Config, s: State)
    requires Inv(c, s)
    ensures SchedulerInv(c, s) && WellShaped(c, s)
  {
    hide TaskInv, SchedulerInv;
  }

  lemma PopKeeps(c: Config, s: State)
    requires Inv(c, s) && Enabled(c, s, PopTask)
    ensures Inv(c, Apply(c, s, PopTask))
  {
    SchedulerOf(c, s);
    hide Inv, Sound, Done;
    var s', t := Apply(c, s, PopTask), s.it.ready[|s.it.ready| - 1];
    PopSound(c.parents, s.it);
    PopInTable(c.parents, s.it);
    SchedulerMoved(c, s, s');
  }

  lemma PopInTable(parents: Parents, it: Iteration)
    requires Sound(parents, it) && it.ready != []
    ensures it.ready[|it.ready| - 1] < |parents| && |Pop(it).deps| == |parents|
  {
    assert it.ready[|it.ready| - 1] in Elements(it.ready);
  }

  lemma WaitKeeps(c: Config, s: State)
    requires Inv(c, s) && Enabled(c, s, Wait)
    ensures Inv(c, Apply(c, s, Wait))
  {
    SchedulerOf(c, s);
    hide Inv, Sound, Done;
    SchedulerMoved(c, s, Apply(c, s, Wait));
  }

  lemma DrainKeeps(c: Config, s: State)
    requires Inv(c, s) && Enabled(c, s, Drain)
    ensures Inv(c, Apply(c, s, Drain))
  {
    SchedulerOf(c, s);
    hide Inv, Sound, Done, FinishAll;
    FinishAllSound(c.parents, s.it, s.doneq);
    SchedulerMoved(c, s, Apply(c, s, Drain));
  }

  lemma StartKeeps(c: Config)
    requires c.Valid() && CanStart(c)
    ensures Inv(c, Start(c))
  {
    var s := Start(c);
    ResetSound(c.parents);
    forall id: Id ensures TaskInv(c, s, id) {
    }
  }

  // One step of any thread keeps everything.
  lemma StepKeeps(c: Config, s: State, m: Move)
    requires Inv(c, s) && Enabled(c, s, m)
    ensures Inv(c, Apply(c, s, m))
  {
    hide *;
    match m
    case Take(w) => TakeKeeps(c, s, w);
    case Fetch(w) => FetchKeeps(c, s, w);
    case Run(w) => RunKeeps(c, s, w);
    case Report(w) =>
      ReportEnabled(c, s, w);
      if s.queues[c.home[w]].Completes(s.workers[w].id) {
        CompleteKeeps(c, s, w);
      } else {
        ReportKeeps(c, s, w);
      }
    case PopTask => PopKeeps(c, s);
    case EnterTask(entry) => EnterKeeps(c, s, entry);
    case Wait => WaitKeeps(c, s);
    case Drain => DrainKeeps(c, s);
  }

  lemma ReportEnabled(c: Config, s: State, w: nat)
    requires Inv(c, s) && Enabled(c, s, Report(w))
    ensures w < |s.workers| == |c.home| && c.home[w] < |s.queues| && s.workers[w].Ran?
  {
    hide TaskInv, SchedulerInv;
  }
}
