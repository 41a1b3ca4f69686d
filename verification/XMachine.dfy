/** The states of an agent: which state it starts in and in which it may end. */
module XMachines {
  import opened Digraph

  // What decides, at a state, whether a function is taken.
  datatype Condition = Always | When(readOnlyVariables: set<string>)

  // A transition function leads from one state to the next; it declares the
  // variables it accesses and the messages it posts and reads.
  datatype Function = Function(
    name: string, currentState: string, nextState: string, condition: Condition,
    readOnlyVariables: seq<string>, readWriteVariables: seq<string>,
    outputs: seq<string>, inputs: seq<string>)

  function CurrentStates(fs: seq<Function>): set<string> {
    set f | f in fs :: f.currentState
  }

  function NextStates(fs: seq<Function>): set<string> {
    set f | f in fs :: f.nextState
  }

  // Function j can follow function i.
  function StateEdges(fs: seq<Function>): Edges {
    set i: nat, j: nat | i < |fs| && j < |fs| && fs[i].nextState == fs[j].currentState :: (i, j)
  }

  class XMachine {
    var functions: seq<Function>
    var startState: string
    var endStates: set<string>

    constructor (functions: seq<Function>)
      ensures this.functions == functions && endStates == {}
    {
      this.functions, startState, endStates := functions, "", {};
    }

    // A start state is left but never entered, an end state entered but never left.
    method FindStartEndStates() returns (rc: nat)
      modifies `startState, `endStates
      ensures endStates == NextStates(functions) - CurrentStates(functions)
      ensures ghost var starts := CurrentStates(functions) - NextStates(functions);
              && rc == (if starts == {} then 1 else if exists s :: starts == {s} then 0 else 2)
              && (if rc == 0 then starts == {startState} else startState == old(startState))
    {
      hide CurrentStates, NextStates;
      var startStates := CollectStates();
      startStates := DropStates(startStates);
      if |startStates| == 0 {
        return 1;
      } else if |startStates| > 1 {
        Several(startStates);
        return 2;
      }
      var s :| s in startStates;
      Single(startStates, s);
      startState := s;
      return 0;
    }

    // All states that are left may be start states, all that are entered end states.
    method CollectStates() returns (startStates: set<string>)
      modifies `endStates
      ensures startStates == CurrentStates(functions) && endStates == NextStates(functions)
    {
      hide CurrentStates, NextStates;
      startStates, endStates := {}, {};
      StatesBelow(functions, 0);
      var f := 0;
      while f < |functions|
        invariant 0 <= f <= |functions|
        invariant startStates == CurrentStates(functions[..f]) && endStates == NextStates(functions[..f])
      {
        StatesBelow(functions, f);
        endStates := endStates + {functions[f].nextState};
        startStates := startStates + {functions[f].currentState};
        f := f + 1;
      }
      assert functions[..f] == functions;
    }

    // But for those that are entered, or left.
    method DropStates(states: set<string>) returns (startStates: set<string>)
      modifies `endStates
      ensures startStates == states - NextStates(functions)
      ensures endStates == old(endStates) - CurrentStates(functions)
    {
      hide CurrentStates, NextStates;
      startStates := states;
      StatesBelow(functions, 0);
      var f := 0;
      while f < |functions|
        invariant 0 <= f <= |functions|
        invariant startStates == states - NextStates(functions[..f])
        invariant endStates == old(endStates) - CurrentStates(functions[..f])
      {
        StatesBelow(functions, f);
        startStates := startStates - {functions[f].nextState};
        endStates := endStates - {functions[f].currentState};
        f := f + 1;
      }
      assert functions[..f] == functions;
    }
  }

  // What the k-th function adds to the states below it.
  lemma StatesBelow(fs: seq<Function>, k: nat)
    ensures CurrentStates(fs[..0]) == {} && NextStates(fs[..0]) == {}
    ensures k < |fs| ==> CurrentStates(fs[..k + 1]) == CurrentStates(fs[..k]) + {fs[k].currentState}
    ensures k < |fs| ==> NextStates(fs[..k + 1]) == NextStates(fs[..k]) + {fs[k].nextState}
  {
    if k < |fs| {
      assert fs[..k + 1] == fs[..k] + [fs[k]];
    }
  }

  lemma Several(S: set<string>)
    requires |S| > 1
    ensures !exists s :: S == {s}
  {
    forall s ensures S != {s} {
      assert |{s}| == 1;
    }
  }

  lemma Single(S: set<string>, s: string)
    requires s in S && |S| <= 1
    ensures S == {s}
  {
    assert |S - {s}| == 0;
    assert S - {s} == {};
  }

  // The functions that can come before j, and j itself.
  ghost function Upstream(fs: seq<Function>, j: Vertex): (r: set<Vertex>)
    requires j < |fs|
    ensures forall i: Vertex :: i in r <==> i < |fs| && (i == j || Reaches(StateEdges(fs), i, j))
  {
    set i: Vertex | i < |fs| && ComesBefore(fs, i, j)
  }

  ghost predicate ComesBefore(fs: seq<Function>, i: Vertex, j: Vertex) {
    i == j || Reaches(StateEdges(fs), i, j)
  }

  ghost function Downstream(fs: seq<Function>, i: Vertex): (r: set<Vertex>)
    requires i < |fs|
    ensures forall j: Vertex :: j in r <==> j < |fs| && (j == i || Reaches(StateEdges(fs), i, j))
  {
    set j: Vertex | j < |fs| && ComesBefore(fs, i, j)
  }

  // Without cycles, what lies upstream of a function begins in a start state.
  lemma BeginsSomewhere(fs: seq<Function>, j: Vertex) returns (i: Vertex)
    requires j < |fs| && Acyclic(StateEdges(fs))
    ensures i < |fs| && fs[i].currentState !in NextStates(fs) && (i == j || Reaches(StateEdges(fs), i, j))
  {
    var E, S := StateEdges(fs), Upstream(fs, j);
    if forall v :: v in S ==> fs[v].currentState in NextStates(fs) {
      forall v | v in S ensures Preceded(E, S, v) {
        var f :| f in fs && f.nextState == fs[v].currentState;
        var u :| 0 <= u < |fs| && fs[u] == f;
        assert (u, v) in E;
        EdgeReaches(E, u, v);
        if v != j { Transitive(E, u, v, j); }
      }
      PredecessorsCycle(E, S, j);
    }
    i :| i in S && fs[i].currentState !in NextStates(fs);
  }

  lemma EndsSomewhere(fs: seq<Function>, i: Vertex) returns (j: Vertex)
    requires i < |fs| && Acyclic(StateEdges(fs))
    ensures j < |fs| && fs[j].nextState !in CurrentStates(fs) && (j == i || Reaches(StateEdges(fs), i, j))
  {
    var E, S := StateEdges(fs), Downstream(fs, i);
    if forall v :: v in S ==> fs[v].nextState in CurrentStates(fs) {
      forall v | v in S ensures Followed(E, S, v) {
        var f :| f in fs && f.currentState == fs[v].nextState;
        var u :| 0 <= u < |fs| && fs[u] == f;
        assert (v, u) in E;
        EdgeReaches(E, v, u);
        if v != i { Transitive(E, i, v, u); }
      }
      SuccessorsCycle(E, S, i);
    }
    j :| j in S && fs[j].nextState !in CurrentStates(fs);
  }

  // A state graph that passes: every function can be come to from the one start
  // state and can go on to a function that ends in an end state.
  lemma EveryFunctionLives(fs: seq<Function>, startState: string, endStates: set<string>, k: Vertex)
    requires Acyclic(StateEdges(fs)) && k < |fs|
    requires CurrentStates(fs) - NextStates(fs) == {startState}
    requires endStates == NextStates(fs) - CurrentStates(fs)
    ensures exists i: Vertex :: i < |fs| && fs[i].currentState == startState && ComesBefore(fs, i, k)
    ensures exists j: Vertex :: j < |fs| && fs[j].nextState in endStates && ComesBefore(fs, k, j)
  {
    var i := BeginsSomewhere(fs, k);
    var j := EndsSomewhere(fs, k);
    assert fs[i].currentState in CurrentStates(fs) - NextStates(fs);
    assert fs[j].nextState in endStates;
    assert ComesBefore(fs, i, k) && ComesBefore(fs, k, j);
  }

  // An agent with functions and no cycle does have a start state.
  lemma AcyclicHasStart(fs: seq<Function>)
    requires Acyclic(StateEdges(fs)) && fs != []
    ensures CurrentStates(fs) - NextStates(fs) != {} && NextStates(fs) - CurrentStates(fs) != {}
  {
    var i := BeginsSomewhere(fs, 0);
    var j := EndsSomewhere(fs, 0);
    assert fs[i].currentState in CurrentStates(fs) - NextStates(fs);
    assert fs[j].nextState in NextStates(fs) - CurrentStates(fs);
  }
}
