/** The lines of the executor: of two tasks that go to the same queue, the one that was
    entered first is taken first, with all its pieces. */
module FirstInFirstOut {
  import opened TaskIteration
  import opened Executor
  import opened ExecutorRuns

  // The i-th move enters the task, or has a worker take it, whole or a piece of it.
  ghost predicate EntersAt(states: seq<State>, moves: seq<Move>, i: nat, id: Id) {
    i < |moves| < |states| && moves[i].EnterTask? && states[i].pc == Enqueueing(id)
  }

  ghost predicate TakesAt(states: seq<State>, moves: seq<Move>, i: nat, id: Id) {
    && i < |moves| < |states| && moves[i].Take? && moves[i].w < |states[i + 1].workers|
    && states[i + 1].workers[moves[i].w] == Assigned(id)
  }

  function Line(c: Config, s: State, id: Id): seq<Id> {
    if id < |c.route| && c.route[id] < |s.queues| then s.queues[c.route[id]].fifo else []
  }

  // ------------------------------------------------------------------- one step

  lemma {:induction false} StepOfRun(c: Config, states: seq<State>, moves: seq<Move>, i: nat)
    requires IsRunOf(c, states, moves) && i < |moves|
    ensures |states| == |moves| + 1 && Inv(c, states[i]) && WellShaped(c, states[i]) && Enabled(c, states[i], moves[i])
    ensures states[i + 1] == Apply(c, states[i], moves[i])
  {
    RunKeepsInv(c, states, moves, i);
    assert Follows(c, states[i], moves[i], states[i + 1]);
    hide Inv, Enabled, Apply, WellShaped, Start;
  }

  // A task joins the line at its end and leaves it from its head.
  lemma {:induction false} LineStep(c: Config, s: State, m: Move, id: Id)
    requires Inv(c, s) && WellShaped(c, s) && Enabled(c, s, m) && id < |c.route|
    ensures ghost var before, after := Line(c, s, id), Line(c, Apply(c, s, m), id);
            if m.EnterTask? && s.pc.id < |c.route| && c.route[s.pc.id] == c.route[id] then after == before + [s.pc.id]
            else after == before || (m.Take? && before != [] && after == before[1..] && Apply(c, s, m).workers[m.w] == Assigned(before[0]))
    ensures s.log <= Apply(c, s, m).log && (m.EnterTask? ==> exists n: nat :: Entered(s.pc.id, n) in Apply(c, s, m).log)
  {
    hide Inv, Sound, Completed;
    if m.EnterTask? {
      assert Entered(s.pc.id, Pieces(m.entry)) in Apply(c, s, m).log;
    }
  }

  // What is taken was at the head of its own line.
  lemma {:induction false} TakesHead(c: Config, s: State, m: Move, id: Id)
    requires Inv(c, s) && WellShaped(c, s) && Enabled(c, s, m) && m.Take? && Apply(c, s, m).workers[m.w] == Assigned(id)
    ensures id < |c.route| && Line(c, s, id) != [] && Line(c, s, id)[0] == id
    ensures exists n: nat :: Entered(id, n) in s.log
  {
    HeadIsFlying(c, s, m.w);
    var q := s.queues[c.home[m.w]];
    assert !Absent(s, id) && !AwayFrom(q, id);
    KnownIsFlying(c, s, id);
    hide Inv, Absent;
    assert Entered(id, Size(q, id)) in s.log;
  }

  // ------------------------------------------------------------------ along a run

  lemma {:induction false} LogGrows(c: Config, states: seq<State>, moves: seq<Move>, m: nat, n: nat)
    requires IsRunOf(c, states, moves) && m <= n <= |moves| && |states| == |moves| + 1
    ensures states[m].log <= states[n].log
  {
    hide *;
    if m < n {
      LogGrows(c, states, moves, m, n - 1);
      LogStep(c, states, moves, n - 1);
    }
  }

  lemma {:induction false} LogStep(c: Config, states: seq<State>, moves: seq<Move>, i: nat)
    requires IsRunOf(c, states, moves) && i < |moves| && |states| == |moves| + 1
    ensures states[i].log <= states[i + 1].log
  {
    StepOfRun(c, states, moves, i);
    hide IsRunOf, Inv, Sound, Completed, WellShaped;
  }

  // No task is entered twice, nor after a worker has taken it.
  lemma {:induction false} NotAgain(c: Config, states: seq<State>, moves: seq<Move>, m: nat, n: nat, id: Id)
    requires IsRunOf(c, states, moves) && m <= n < |moves| && |states| == |moves| + 1
    requires exists k: nat :: Entered(id, k) in states[m].log
    ensures states[n].pc != Enqueueing(id)
  {
    hide *;
    var k: nat :| Entered(id, k) in states[m].log;
    LogGrows(c, states, moves, m, n);
    assert Entered(id, k) in states[n].log;
    StepOfRun(c, states, moves, n);
    if states[n].pc == Enqueueing(id) {
      EnteringFacts(c, states[n]);
      SilentIs(states[n].log, id, Entered(id, k));
    }
  }

  lemma SilentIs(log: seq<Event>, id: Id, e: Event)
    requires Silent(log, id) && e.id == id
    ensures e !in log
  {
  }

  lemma {:induction false} Entry(c: Config, states: seq<State>, moves: seq<Move>, p: nat, id: Id)
    requires IsRunOf(c, states, moves) && EntersAt(states, moves, p, id)
    ensures p < |moves| && |states| == |moves| + 1 && id < |c.route| && id !in Line(c, states[p], id)
    ensures Line(c, states[p + 1], id) == Line(c, states[p], id) + [id]
    ensures exists n: nat :: Entered(id, n) in states[p + 1].log
  {
    StepOfRun(c, states, moves, p);
    hide IsRunOf, Inv;
    EnteringFacts(c, states[p]);
    LineStep(c, states[p], moves[p], id);
  }

  // Once it has left the line a task does not come back.
  lemma {:induction false} StaysGone(c: Config, states: seq<State>, moves: seq<Move>, p: nat, m: nat, n: nat, id: Id)
    requires IsRunOf(c, states, moves) && EntersAt(states, moves, p, id) && p < m <= n <= |moves| && |states| == |moves| + 1
    requires id < |c.route| && id !in Line(c, states[m], id)
    ensures id !in Line(c, states[n], id)
    decreases n
  {
    hide *;
    if m < n {
      StaysGone(c, states, moves, p, m, n - 1, id);
      Entry(c, states, moves, p, id);
      NotAgain(c, states, moves, p + 1, n - 1, id);
      StepOfRun(c, states, moves, n - 1);
      LineStep(c, states[n - 1], moves[n - 1], id);
      EnabledEnter(c, states[n - 1], moves[n - 1]);
    }
  }

  lemma EnabledEnter(c: Config, s: State, m: Move)
    requires WellShaped(c, s) && Enabled(c, s, m)
    ensures m.EnterTask? ==> s.pc == Enqueueing(s.pc.id)
  {
  }

  ghost predicate Ahead(line: seq<Id>, a: Id, b: Id) {
    forall x, y :: 0 <= x < |line| && 0 <= y < |line| && line[x] == a && line[y] == b ==> x < y
  }

  lemma {:induction false} AheadInTail(line: seq<Id>, a: Id, b: Id)
    requires line != [] && Ahead(line, a, b)
    ensures Ahead(line[1..], a, b)
  {
    var rest := line[1..];
    forall x, y | 0 <= x < |rest| && 0 <= y < |rest| && rest[x] == a && rest[y] == b ensures x < y {
      assert line[x + 1] == a && line[y + 1] == b;
    }
  }

  lemma {:induction false} AheadWithMore(line: seq<Id>, id: Id, a: Id, b: Id)
    requires Ahead(line, a, b) && a != id && b != id
    ensures Ahead(line + [id], a, b)
  {
  }

  lemma {:induction false} AheadOfLast(line: seq<Id>, a: Id, b: Id)
    requires a != b && b !in line
    ensures Ahead(line + [b], a, b)
  {
  }

  // From when both are entered, the one that was first stands before the other.
  lemma {:induction false} StaysAhead(c: Config, states: seq<State>, moves: seq<Move>, p: nat, q: nat, n: nat, a: Id, b: Id)
    requires IsRunOf(c, states, moves) && EntersAt(states, moves, p, a) && EntersAt(states, moves, q, b)
    requires p < q < n <= |moves| && |states| == |moves| + 1
    requires a < |c.route| && b < |c.route| && c.route[a] == c.route[b]
    ensures Ahead(Line(c, states[n], b), a, b)
    decreases n
  {
    hide *;
    Entry(c, states, moves, p, a);
    Entry(c, states, moves, q, b);
    EntersIs(states, moves, q, b);
    if n == q + 1 {
      NotAgain(c, states, moves, p + 1, q, a);
      AheadOfLast(Line(c, states[q], b), a, b);
    } else {
      StaysAhead(c, states, moves, p, q, n - 1, a, b);
      NotAgain(c, states, moves, p + 1, n - 1, a);
      NotAgain(c, states, moves, q + 1, n - 1, b);
      StepOfRun(c, states, moves, n - 1);
      LineStep(c, states[n - 1], moves[n - 1], b);
      EnabledEnter(c, states[n - 1], moves[n - 1]);
      var line := Line(c, states[n - 1], b);
      if line != [] { AheadInTail(line, a, b); }
      if moves[n - 1].EnterTask? { AheadWithMore(line, states[n - 1].pc.id, a, b); }
    }
  }

  lemma EntersIs(states: seq<State>, moves: seq<Move>, q: nat, b: Id)
    requires EntersAt(states, moves, q, b)
    ensures q < |moves| < |states| && moves[q].EnterTask? && states[q].pc == Enqueueing(b)
  {
  }

  lemma {:induction false} Take(c: Config, states: seq<State>, moves: seq<Move>, t: nat, id: Id)
    requires IsRunOf(c, states, moves) && TakesAt(states, moves, t, id)
    ensures t < |moves| && |states| == |moves| + 1 && id < |c.route| && Line(c, states[t], id) != [] && Line(c, states[t], id)[0] == id
    ensures exists n: nat :: Entered(id, n) in states[t].log
  {
    StepOfRun(c, states, moves, t);
    hide IsRunOf, Inv, WellShaped, Enabled, Apply, Line;
    TakesHead(c, states[t], moves[t], id);
  }

  // A task that has left its line has been taken.
  lemma {:induction false} WasTaken(c: Config, states: seq<State>, moves: seq<Move>, m: nat, n: nat, id: Id) returns (r: nat)
    requires IsRunOf(c, states, moves) && m <= n <= |moves| && |states| == |moves| + 1 && id < |c.route|
    requires id in Line(c, states[m], id) && id !in Line(c, states[n], id)
    ensures m <= r < n && TakesAt(states, moves, r, id)
    decreases n
  {
    hide *;
    if id !in Line(c, states[n - 1], id) {
      r := WasTaken(c, states, moves, m, n - 1, id);
    } else {
      r := n - 1;
      StepOfRun(c, states, moves, r);
      LineStep(c, states[r], moves[r], id);
      var line := Line(c, states[r], id);
      assert line == [line[0]] + line[1..];
      IsTake(c, states, moves, r, id);
    }
  }

  lemma {:induction false} IsTake(c: Config, states: seq<State>, moves: seq<Move>, r: nat, id: Id)
    requires |states| == |moves| + 1 && r < |moves| && WellShaped(c, states[r]) && Enabled(c, states[r], moves[r])
    requires states[r + 1] == Apply(c, states[r], moves[r]) && moves[r].Take? && states[r + 1].workers[moves[r].w] == Assigned(id)
    ensures TakesAt(states, moves, r, id)
  {
  }

  /** In every run: if a was entered before b, and both go to the same queue, then a worker has
      taken a before any takes b, and none takes any more of a afterwards. */
  lemma {:induction false} FirstInFirstOut(c: Config, states: seq<State>, moves: seq<Move>, p: nat, q: nat, t: nat, a: Id, b: Id) returns (r: nat)
    requires IsRunOf(c, states, moves) && EntersAt(states, moves, p, a) && EntersAt(states, moves, q, b) && p < q
    requires a < |c.route| && b < |c.route| && c.route[a] == c.route[b] && TakesAt(states, moves, t, b)
    ensures p < r < t && TakesAt(states, moves, r, a)
    ensures forall l: nat :: TakesAt(states, moves, l, a) ==> l < t
  {
    hide *;
    Entry(c, states, moves, p, a);
    Entry(c, states, moves, q, b);
    EntersIs(states, moves, q, b);
    Take(c, states, moves, t, b);
    if t <= q { NotAgain(c, states, moves, t, q, b); }
    StaysAhead(c, states, moves, p, q, t, a, b);
    SameLine(c, states[t], a, b);
    BehindHead(Line(c, states[t], b), a, b);
    SameLine(c, states[p + 1], a, a);
    r := WasTaken(c, states, moves, p + 1, t, a);
    forall l: nat | TakesAt(states, moves, l, a) ensures l < t {
      Take(c, states, moves, l, a);
      if l >= t { StaysGone(c, states, moves, p, t, l, a); }
    }
  }

  lemma SameLine(c: Config, s: State, a: Id, b: Id)
    requires a < |c.route| && b < |c.route| && c.route[a] == c.route[b]
    ensures Line(c, s, a) == Line(c, s, b)
  {
  }

  lemma BehindHead(line: seq<Id>, a: Id, b: Id)
    requires line != [] && line[0] == b && Ahead(line, a, b)
    ensures a !in line
  {
  }
}
