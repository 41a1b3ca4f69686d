/** The state graph of an agent, built from its transition functions: what the
    compiler starts from. */
module StateGraphs {
  import opened Digraph
  import opened DataFlow
  import opened TaskGraph
  import opened Tasks
  import opened AgentGraph
  import opened ModelGraph
  import opened XGraphs
  import opened ModelXGraph
  import opened XMachines

  // -------------------------------------------------------- what is built

  // The tasks once all these messages have one.
  function WithMessages(labels: seq<Label>, ms: seq<string>): (r: seq<Label>)
    ensures labels <= r
  {
    if ms == [] then labels
    else WithLabel(WithMessages(labels, ms[..|ms| - 1]), XMessage, ms[|ms| - 1])
  }

  // The tasks after a function and its states.
  function StatesAfter(labels: seq<Label>, f: Function): (r: seq<Label>)
    ensures labels + [Label(XFunction, f.name)] <= r
  {
    WithLabel(WithLabel(labels + [Label(XFunction, f.name)], XState, f.currentState), XState, f.nextState)
  }

  // The tasks after a function has been added, itself first.
  function LabelsAfter(labels: seq<Label>, f: Function): (r: seq<Label>)
    ensures labels + [Label(XFunction, f.name)] <= r
  {
    WithMessages(WithMessages(StatesAfter(labels, f), f.outputs), f.inputs)
  }

  function AllLabels(fs: seq<Function>): seq<Label> {
    if fs == [] then [] else LabelsAfter(AllLabels(fs[..|fs| - 1]), fs[|fs| - 1])
  }

  // The vertex of the k-th function.
  function Position(fs: seq<Function>, k: nat): Vertex
    requires k <= |fs|
  {
    |AllLabels(fs[..k])|
  }

  function StateLinks(labels: seq<Label>, f: Function, p: Vertex): set<Edge> {
    {Edge(Find(labels, XState, f.currentState), p, State), Edge(p, Find(labels, XState, f.nextState), State)}
  }

  function OutputLinks(labels: seq<Label>, ms: seq<string>, p: Vertex): set<Edge> {
    set m | m in ms :: Edge(p, Find(labels, XMessage, m), Communication)
  }

  function InputLinks(labels: seq<Label>, ms: seq<string>, p: Vertex): set<Edge> {
    set m | m in ms :: Edge(Find(labels, XMessage, m), p, Communication)
  }

  // The edges of a function at p: from its state, to its next state, to the
  // messages it posts and from those it reads.
  function Links(labels: seq<Label>, f: Function, p: Vertex): set<Edge> {
    StateLinks(labels, f, p) + OutputLinks(labels, f.outputs, p) + InputLinks(labels, f.inputs, p)
  }

  function AllLinks(labels: seq<Label>, fs: seq<Function>, k: nat): set<Edge>
    requires k <= |fs|
  {
    if k == 0 then {} else AllLinks(labels, fs, k - 1) + Links(labels, fs[k - 1], Position(fs, k - 1))
  }

  predicate Found(labels: seq<Label>, kind: TaskType, name: string) {
    Find(labels, kind, name) < |labels|
  }

  predicate AllFound(labels: seq<Label>, ms: seq<string>) {
    forall m :: m in ms ==> Found(labels, XMessage, m)
  }

  predicate Known(labels: seq<Label>, f: Function) {
    && Found(labels, XState, f.currentState) && Found(labels, XState, f.nextState)
    && AllFound(labels, f.outputs) && AllFound(labels, f.inputs)
  }

  // What has been found stays where it is.
  lemma {:induction false} FoundStays(labels: seq<Label>, more: seq<Label>, kind: TaskType, name: string)
    requires labels <= more && Found(labels, kind, name)
    ensures Found(more, kind, name) && Find(more, kind, name) == Find(labels, kind, name)
  {
    FindStable(labels, more[|labels|..], kind, name);
    assert labels + more[|labels|..] == more;
  }

  lemma {:induction false} AllFoundStays(labels: seq<Label>, more: seq<Label>, ms: seq<string>, p: Vertex)
    requires labels <= more && AllFound(labels, ms)
    ensures AllFound(more, ms)
    ensures OutputLinks(more, ms, p) == OutputLinks(labels, ms, p) && InputLinks(more, ms, p) == InputLinks(labels, ms, p)
  {
    hide Find, Found;
    forall m | m in ms ensures Found(more, XMessage, m) && Find(more, XMessage, m) == Find(labels, XMessage, m) {
      FoundStays(labels, more, XMessage, m);
    }
  }

  lemma {:induction false} LinksStay(labels: seq<Label>, more: seq<Label>, f: Function, p: Vertex)
    requires labels <= more && Known(labels, f)
    ensures Known(more, f) && Links(more, f, p) == Links(labels, f, p)
  {
    hide Find, Found, AllFound, OutputLinks, InputLinks;
    FoundStays(labels, more, XState, f.currentState);
    FoundStays(labels, more, XState, f.nextState);
    AllFoundStays(labels, more, f.outputs, p);
    AllFoundStays(labels, more, f.inputs, p);
  }

  lemma {:induction false} MessagesFound(labels: seq<Label>, ms: seq<string>)
    ensures AllFound(WithMessages(labels, ms), ms)
  {
    if ms != [] {
      var init, m := ms[..|ms| - 1], ms[|ms| - 1];
      MessagesFound(labels, init);
      AllFoundStays(WithMessages(labels, init), WithMessages(labels, ms), init, 0);
      hide Find;
      forall x | x in ms ensures Found(WithMessages(labels, ms), XMessage, x) {
        assert x == m || x in init;
      }
    }
  }

  lemma {:induction false} AfterKnows(labels: seq<Label>, f: Function)
    ensures Known(LabelsAfter(labels, f), f)
  {
    var l0 := labels + [Label(XFunction, f.name)];
    var l1 := WithLabel(l0, XState, f.currentState);
    var l2 := WithLabel(l1, XState, f.nextState);
    var l3 := WithMessages(l2, f.outputs);
    var l4 := WithMessages(l3, f.inputs);
    MessagesFound(l2, f.outputs);
    MessagesFound(l3, f.inputs);
    hide Find, WithLabel, WithMessages;
    FoundStays(l1, l4, XState, f.currentState);
    FoundStays(l2, l4, XState, f.nextState);
    AllFoundStays(l3, l4, f.outputs, 0);
  }

  lemma {:induction false} AllLabelsStep(fs: seq<Function>, k: nat)
    requires 1 <= k <= |fs|
    ensures AllLabels(fs[..k]) == LabelsAfter(AllLabels(fs[..k - 1]), fs[k - 1])
    ensures AllLabels(fs[..k - 1]) + [Label(XFunction, fs[k - 1].name)] <= AllLabels(fs[..k])
  {
    hide LabelsAfter;
    assert fs[..k][..k - 1] == fs[..k - 1];
  }

  // The k-th function stands at p in these tasks, and they have its states and messages.
  predicate Placed(labels: seq<Label>, f: Function, p: Vertex) {
    p < |labels| && labels[p] == Label(XFunction, f.name) && Known(labels, f)
  }

  lemma {:induction false} PlacedFirst(fs: seq<Function>, j: nat)
    requires j < |fs|
    ensures Placed(AllLabels(fs[..j + 1]), fs[j], Position(fs, j))
  {
    AllLabelsStep(fs, j + 1);
    AfterKnows(AllLabels(fs[..j]), fs[j]);
    hide Known, LabelsAfter, AllLabels;
    assert (AllLabels(fs[..j]) + [Label(XFunction, fs[j].name)])[Position(fs, j)] == Label(XFunction, fs[j].name);
  }

  lemma {:induction false} PlacedLater(labels: seq<Label>, more: seq<Label>, f: Function, p: Vertex)
    requires labels <= more && Placed(labels, f, p)
    ensures Placed(more, f, p)
  {
    hide Known;
    LinksStay(labels, more, f, p);
  }

  // Each function stands where it was put.
  lemma {:induction false} AllPlaced(fs: seq<Function>, j: nat, k: nat)
    requires j < k <= |fs|
    ensures AllLabels(fs[..j + 1]) <= AllLabels(fs[..k])
    ensures Placed(AllLabels(fs[..k]), fs[j], Position(fs, j))
    decreases k
  {
    hide *;
    if j == k - 1 {
      PlacedFirst(fs, j);
    } else {
      AllLabelsStep(fs, k);
      AllPlaced(fs, j, k - 1);
      PlacedLater(AllLabels(fs[..k - 1]), AllLabels(fs[..k]), fs[j], Position(fs, j));
    }
  }

  // The edges of the first functions are the same in a longer list of tasks.
  lemma {:induction false} AllLinksStay(fs: seq<Function>, labels: seq<Label>, more: seq<Label>, k: nat)
    requires k <= |fs| && AllLabels(fs[..k]) <= labels <= more
    ensures AllLinks(more, fs, k) == AllLinks(labels, fs, k)
    decreases k
  {
    hide *;
    LastLinks(labels, fs, k);
    LastLinks(more, fs, k);
    if k > 0 {
      AllLabelsStep(fs, k);
      KnownAfter(fs, k);
      AllLinksStay(fs, labels, more, k - 1);
      LinksStay(AllLabels(fs[..k]), labels, fs[k - 1], Position(fs, k - 1));
      LinksStay(AllLabels(fs[..k]), more, fs[k - 1], Position(fs, k - 1));
    }
  }

  lemma {:induction false} KnownAfter(fs: seq<Function>, k: nat)
    requires 1 <= k <= |fs|
    ensures Known(AllLabels(fs[..k]), fs[k - 1])
  {
    hide *;
    AllLabelsStep(fs, k);
    AfterKnows(AllLabels(fs[..k - 1]), fs[k - 1]);
  }

  lemma {:induction false} LastLinks(labels: seq<Label>, fs: seq<Function>, k: nat)
    requires k <= |fs|
    ensures AllLinks(labels, fs, k) ==
            if k == 0 then {} else AllLinks(labels, fs, k - 1) + Links(labels, fs[k - 1], Position(fs, k - 1))
  {
    hide Links, Position;
  }

  // ------------------------------------------------------ the tasks, one by one

  // Functions, and one task for each state and each message.
  ghost predicate Ordinary(labels: seq<Label>) {
    forall v: nat :: v < |labels| ==>
      labels[v].kind.XFunction? || ((labels[v].kind.XState? || labels[v].kind.XMessage?) && Find(labels, labels[v].kind, labels[v].name) == v)
  }

  lemma {:induction false} FunctionKeepsOrdinary(labels: seq<Label>, name: string)
    requires Ordinary(labels)
    ensures Ordinary(labels + [Label(XFunction, name)])
  {
    var more := labels + [Label(XFunction, name)];
    hide Find;
    forall v: nat | v < |labels| && !labels[v].kind.XFunction? ensures Find(more, labels[v].kind, labels[v].name) == v {
      FindStable(labels, [Label(XFunction, name)], labels[v].kind, labels[v].name);
    }
  }

  lemma {:induction false} LabelKeepsOrdinary(labels: seq<Label>, kind: TaskType, name: string)
    requires Ordinary(labels) && (kind.XState? || kind.XMessage?)
    ensures Ordinary(WithLabel(labels, kind, name))
  {
    var more := WithLabel(labels, kind, name);
    hide Find;
    if more != labels {
      forall v: nat | v < |labels| && !labels[v].kind.XFunction? ensures Find(more, labels[v].kind, labels[v].name) == v {
        FindStable(labels, [Label(kind, name)], labels[v].kind, labels[v].name);
      }
      assert labels[..] == labels;
      forall i | 0 <= i < |labels| ensures labels[i] != Label(kind, name) {
        assert Find(labels, kind, name) == |labels|;
      }
      LabelMissing(labels, kind, name);
    }
  }

  lemma {:induction false} MessagesKeepOrdinary(labels: seq<Label>, ms: seq<string>)
    requires Ordinary(labels)
    ensures Ordinary(WithMessages(labels, ms))
  {
    if ms != [] {
      hide Ordinary, WithLabel;
      MessagesKeepOrdinary(labels, ms[..|ms| - 1]);
      LabelKeepsOrdinary(WithMessages(labels, ms[..|ms| - 1]), XMessage, ms[|ms| - 1]);
    }
  }

  lemma {:induction false} AllOrdinary(fs: seq<Function>)
    ensures Ordinary(AllLabels(fs))
  {
    if fs != [] {
      var f, l0 := fs[|fs| - 1], AllLabels(fs[..|fs| - 1]);
      AllOrdinary(fs[..|fs| - 1]);
      hide Ordinary, WithLabel, WithMessages, Find;
      var l1 := l0 + [Label(XFunction, f.name)];
      FunctionKeepsOrdinary(l0, f.name);
      LabelKeepsOrdinary(l1, XState, f.currentState);
      var l2 := WithLabel(l1, XState, f.currentState);
      LabelKeepsOrdinary(l2, XState, f.nextState);
      var l3 := WithLabel(l2, XState, f.nextState);
      MessagesKeepOrdinary(l3, f.outputs);
      MessagesKeepOrdinary(WithMessages(l3, f.outputs), f.inputs);
    }
  }

  // Where a function's task is, a function of the list stands.
  lemma {:induction false} MessagesAddNoFunction(labels: seq<Label>, ms: seq<string>, v: Vertex)
    requires |labels| <= v < |WithMessages(labels, ms)|
    ensures WithMessages(labels, ms)[v].kind.XMessage?
  {
    hide Find;
    if v < |WithMessages(labels, ms[..|ms| - 1])| {
      MessagesAddNoFunction(labels, ms[..|ms| - 1], v);
    }
  }

  lemma {:induction false} OneFunctionAdded(labels: seq<Label>, f: Function, v: Vertex)
    requires |labels| <= v < |LabelsAfter(labels, f)| && LabelsAfter(labels, f)[v].kind.XFunction?
    ensures v == |labels|
  {
    var l1 := labels + [Label(XFunction, f.name)];
    var l2 := WithLabel(l1, XState, f.currentState);
    var l3 := WithLabel(l2, XState, f.nextState);
    var l4 := WithMessages(l3, f.outputs);
    hide Find, WithMessages;
    if v >= |l4| {
      MessagesAddNoFunction(l4, f.inputs, v);
    } else if v >= |l3| {
      MessagesAddNoFunction(l3, f.outputs, v);
    }
  }

  lemma {:induction false} FunctionAt(fs: seq<Function>, k: nat, v: Vertex) returns (j: nat)
    requires k <= |fs| && v < |AllLabels(fs[..k])| && AllLabels(fs[..k])[v].kind.XFunction?
    ensures j < k && v == Position(fs, j)
    decreases k
  {
    hide *;
    NoneFirst(fs, k);
    AllLabelsStep(fs, k);
    var before := AllLabels(fs[..k - 1]);
    if v < |before| {
      assert (before + [Label(XFunction, fs[k - 1].name)])[v] == before[v];
      j := FunctionAt(fs, k - 1, v);
    } else {
      OneFunctionAdded(before, fs[k - 1], v);
      j := k - 1;
      PositionIs(fs, j);
    }
  }

  lemma {:induction false} NoneFirst(fs: seq<Function>, k: nat)
    requires k <= |fs|
    ensures AllLabels(fs[..k]) != [] ==> k > 0
  {
  }

  lemma {:induction false} PositionIs(fs: seq<Function>, k: nat)
    requires k <= |fs|
    ensures Position(fs, k) == |AllLabels(fs[..k])|
  {
  }

  // ------------------------------------------------------ the edges, one by one

  // e is an edge of the j-th function.
  predicate LinkOf(labels: seq<Label>, fs: seq<Function>, j: nat, e: Edge)
    requires j < |fs|
  {
    e in Links(labels, fs[j], Position(fs, j))
  }

  lemma {:induction false} AllLinksAre(labels: seq<Label>, fs: seq<Function>, k: nat, e: Edge)
    requires k <= |fs|
    ensures e in AllLinks(labels, fs, k) <==> exists j: nat :: j < k && LinkOf(labels, fs, j, e)
  {
    hide *;
    AllLinksStep(labels, fs, k, e);
    if k > 0 {
      AllLinksAre(labels, fs, k - 1, e);
    }
  }

  lemma {:induction false} AllLinksStep(labels: seq<Label>, fs: seq<Function>, k: nat, e: Edge)
    requires k <= |fs|
    ensures e in AllLinks(labels, fs, k) <==> k > 0 && (e in AllLinks(labels, fs, k - 1) || LinkOf(labels, fs, k - 1, e))
  {
    hide Links, Position;
  }

  function StateGraphOf(fs: seq<Function>): set<Edge> {
    AllLinks(AllLabels(fs), fs, |fs|)
  }

  lemma {:induction false} PlacedIn(fs: seq<Function>, j: nat)
    requires j < |fs|
    ensures Placed(AllLabels(fs), fs[j], Position(fs, j))
  {
    hide *;
    AllPlaced(fs, j, |fs|);
    assert fs[..|fs|] == fs;
  }

  lemma {:induction false} LinkThere(fs: seq<Function>, j: nat, e: Edge)
    requires j < |fs| && e in Links(AllLabels(fs), fs[j], Position(fs, j))
    ensures e in StateGraphOf(fs)
  {
    hide Links, Position, AllLabels, AllLinks;
    AllLinksAre(AllLabels(fs), fs, |fs|, e);
    assert LinkOf(AllLabels(fs), fs, j, e);
  }

  lemma {:induction false} LinkFrom(fs: seq<Function>, e: Edge) returns (j: nat)
    requires e in StateGraphOf(fs)
    ensures j < |fs| && e in Links(AllLabels(fs), fs[j], Position(fs, j))
  {
    hide Links, Position, AllLabels, AllLinks;
    AllLinksAre(AllLabels(fs), fs, |fs|, e);
    j :| j < |fs| && LinkOf(AllLabels(fs), fs, j, e);
  }

  // One end of each edge is its function, the other a state or a message.
  lemma {:induction false} LinkEnds(labels: seq<Label>, f: Function, p: Vertex, e: Edge)
    requires Placed(labels, f, p) && e in Links(labels, f, p)
    ensures e.source < |labels| && e.target < |labels|
    ensures || (e.source == p && (labels[e.target].kind.XState? || labels[e.target].kind.XMessage?))
            || (e.target == p && (labels[e.source].kind.XState? || labels[e.source].kind.XMessage?))
    ensures e.kind == State <==> !labels[e.source].kind.XMessage? && !labels[e.target].kind.XMessage?
  {
    hide Find;
  }

  // The graph of the functions is a state graph if it has no cycle.
  lemma {:induction false} FunctionsMakeStateGraph(fs: seq<Function>, nodes: seq<Node>)
    requires |nodes| == |AllLabels(fs)| && forall v :: 0 <= v < |nodes| ==> nodes[v].kind == AllLabels(fs)[v].kind
    requires Acyclic(Pairs(StateGraphOf(fs)))
    ensures IsStateGraph(nodes, StateGraphOf(fs))
  {
    var labels, es := AllLabels(fs), StateGraphOf(fs);
    AllOrdinary(fs);
    hide Acyclic, Links, AllLinks, StateGraphOf, AllLabels, Known, Find, Position;
    forall e | e in es
      ensures e.source < |labels| && e.target < |labels|
      ensures labels[e.source].kind.XState? || labels[e.source].kind.XMessage? ==> labels[e.target].kind.XFunction?
    {
      var j := LinkFrom(fs, e);
      PlacedIn(fs, j);
      LinkEnds(labels, fs[j], Position(fs, j), e);
    }
    assert InRange(Pairs(es), |nodes|);
  }

  // -------------------------------------------- what the graph says of functions

  ghost predicate SameMessages(nodes: seq<Node>, labels: seq<Label>) {
    |nodes| == |labels| && forall v :: 0 <= v < |nodes| ==> (nodes[v].kind.XMessage? <==> labels[v].kind.XMessage?)
  }

  lemma {:induction false} OffMessages(fs: seq<Function>, nodes: seq<Node>, e: Edge)
    requires SameMessages(nodes, AllLabels(fs)) && e in StateGraphOf(fs)
    requires e.source < |AllLabels(fs)| && !AllLabels(fs)[e.source].kind.XMessage?
    requires e.target < |AllLabels(fs)| && !AllLabels(fs)[e.target].kind.XMessage?
    ensures (e.source, e.target) in Avoiding(Pairs(StateGraphOf(fs)), Messages(nodes))
  {
    hide AllLabels, StateGraphOf;
    PairsOf(StateGraphOf(fs), e);
  }

  lemma {:induction false} StateLinksOf(labels: seq<Label>, f: Function, p: Vertex)
    requires Placed(labels, f, p)
    ensures ghost var a, b := Find(labels, XState, f.currentState), Find(labels, XState, f.nextState);
            && a < |labels| && labels[a].kind.XState? && b < |labels| && labels[b].kind.XState?
            && p < |labels| && labels[p].kind.XFunction?
            && Edge(a, p, State) in Links(labels, f, p) && Edge(p, b, State) in Links(labels, f, p)
  {
    hide Find, OutputLinks, InputLinks, AllFound;
  }

  lemma {:induction false} StateLinksAvoidMessages(fs: seq<Function>, nodes: seq<Node>, j: nat)
    requires j < |fs| && SameMessages(nodes, AllLabels(fs))
    ensures ghost var labels, F := AllLabels(fs), Avoiding(Pairs(StateGraphOf(fs)), Messages(nodes));
            && (Find(labels, XState, fs[j].currentState), Position(fs, j)) in F
            && (Position(fs, j), Find(labels, XState, fs[j].nextState)) in F
  {
    hide *;
    var labels, p := AllLabels(fs), Position(fs, j);
    var a, b := Find(labels, XState, fs[j].currentState), Find(labels, XState, fs[j].nextState);
    PlacedIn(fs, j);
    StateLinksOf(labels, fs[j], p);
    LinkThere(fs, j, Edge(a, p, State));
    LinkThere(fs, j, Edge(p, b, State));
    OffMessages(fs, nodes, Edge(a, p, State));
    OffMessages(fs, nodes, Edge(p, b, State));
  }

  // Where a function's vertex is.
  function At(fs: seq<Function>, j: Vertex): Vertex {
    if j < |fs| then Position(fs, j) else 0
  }

  lemma {:induction false} FollowerRunsLater(fs: seq<Function>, nodes: seq<Node>, i: Vertex, j: Vertex)
    requires SameMessages(nodes, AllLabels(fs)) && i < |fs| && j < |fs| && fs[i].nextState == fs[j].currentState
    ensures RunsBefore(nodes, StateGraphOf(fs), Position(fs, i), Position(fs, j))
  {
    var F := Avoiding(Pairs(StateGraphOf(fs)), Messages(nodes));
    var s := Find(AllLabels(fs), XState, fs[i].nextState);
    hide AllLabels, StateGraphOf, Find, Position, Reaches, SameMessages, Avoiding;
    StateLinksAvoidMessages(fs, nodes, i);
    StateLinksAvoidMessages(fs, nodes, j);
    EdgeReaches(F, Position(fs, i), s);
    EdgeReaches(F, s, Position(fs, j));
    Transitive(F, Position(fs, i), s, Position(fs, j));
  }

  // A function that can come after another runs later.
  lemma {:induction false} FollowersRunLater(fs: seq<Function>, nodes: seq<Node>, i: Vertex, j: Vertex)
    requires SameMessages(nodes, AllLabels(fs)) && Reaches(StateEdges(fs), i, j)
    ensures i < |fs| && j < |fs| && RunsBefore(nodes, StateGraphOf(fs), Position(fs, i), Position(fs, j))
  {
    hide AllLabels, StateGraphOf, Position, Reaches, SameMessages, Avoiding;
    var F := Avoiding(Pairs(StateGraphOf(fs)), Messages(nodes));
    var f: Vertex -> Vertex := v => At(fs, v);
    FollowersInRange(fs, i, j);
    ImageReaches(StateEdges(fs), f, i, j);
    forall e | e in Image(StateEdges(fs), f) ensures Reaches(F, e.0, e.1) {
      var d :| d in StateEdges(fs) && e == (f(d.0), f(d.1));
      FollowerRunsLater(fs, nodes, d.0, d.1);
    }
    LiftReaches(Image(StateEdges(fs), f), F, f(i), f(j));
  }

  lemma {:induction false} FollowersInRange(fs: seq<Function>, i: Vertex, j: Vertex)
    requires Reaches(StateEdges(fs), i, j)
    ensures i < |fs| && j < |fs|
  {
    assert InRange(StateEdges(fs), |fs|);
    ReachesInRange(StateEdges(fs), |fs|, i, j);
  }

  lemma {:induction false} NoCyclicStates(fs: seq<Function>)
    requires Acyclic(Pairs(StateGraphOf(fs)))
    ensures Acyclic(StateEdges(fs))
  {
    var nodes := seq(|AllLabels(fs)|, v requires 0 <= v < |AllLabels(fs)| => Node(AllLabels(fs)[v].kind, {}, {}));
    hide AllLabels, StateGraphOf, StateEdges, Reaches;
    forall v ensures !Reaches(StateEdges(fs), v, v) {
      if Reaches(StateEdges(fs), v, v) {
        FollowersRunLater(fs, nodes, v, v);
        Monotone(Avoiding(Pairs(StateGraphOf(fs)), Messages(nodes)), Pairs(StateGraphOf(fs)), Position(fs, v), Position(fs, v));
      }
    }
  }

  // ----------------------------------------------------- what the tasks access

  function FunctionNode(f: Function): Node {
    Node(XFunction, Names(f.readOnlyVariables) + Names(f.readWriteVariables), Names(f.readWriteVariables))
  }

  function ConditionReads(condition: Condition): set<string> {
    if condition.When? then condition.readOnlyVariables else {}
  }

  // A state also reads what the conditions of its functions read.
  function WithCondition(f: Function, l: Label, node: Node): Node {
    if l == Label(XState, f.currentState) then node.(readVars := node.readVars + ConditionReads(f.condition)) else node
  }

  function NodesAfter(nodes: seq<Node>, labels: seq<Label>, f: Function): (r: seq<Node>)
    ensures |r| == |labels|
  {
    seq(|labels|, v requires 0 <= v < |labels| =>
      if v < |nodes| then WithCondition(f, labels[v], nodes[v])
      else if v == |nodes| then FunctionNode(f)
      else WithCondition(f, labels[v], Node(labels[v].kind, {}, {})))
  }

  function AllNodes(fs: seq<Function>): (r: seq<Node>)
    ensures |r| == |AllLabels(fs)|
  {
    if fs == [] then [] else NodesAfter(AllNodes(fs[..|fs| - 1]), AllLabels(fs), fs[|fs| - 1])
  }

  // ------------------------------------------------------------- building it

  // The start task is that of the start state, once there is one.
  ghost predicate StartIs(ts: seq<Task>, labels: seq<Label>, start: Task?, startState: string) {
    var v := Find(labels, XState, startState);
    if v < |ts| then start == ts[v] else start == null
  }

  lemma {:induction false} OtherLabelKeepsStart(labels: seq<Label>, l: Label, state: string)
    requires l != Label(XState, state)
    ensures ghost var v, w := Find(labels, XState, state), Find(labels + [l], XState, state);
            if v < |labels| then w == v else w == |labels| + 1
  {
    hide Find;
    var v, more := Find(labels, XState, state), labels + [l];
    if v < |labels| {
      FindStable(labels, [l], XState, state);
    } else {
      forall i | 0 <= i < |more| ensures more[i] != Label(XState, state) {
        assert more[i] == if i < |labels| then labels[i] else l;
      }
    }
  }

  lemma {:induction false} AddedKeepsStart(labels: seq<Label>, kind: TaskType, name: string, state: string)
    requires Label(kind, name) != Label(XState, state)
    ensures ghost var more := WithLabel(labels, kind, name);
            ghost var v, w := Find(labels, XState, state), Find(more, XState, state);
            if v < |labels| then w == v else w >= |more|
  {
    hide Find;
    OtherLabelKeepsStart(labels, Label(kind, name), state);
  }

  // The task of a state.
  method AddState(g: XGraph, name: string, startState: string) returns (v: Vertex)
    requires AllValid(g.vertex2task) && StartIs(g.vertex2task, LabelsOf(g.vertex2task), g.startTask, startState)
    modifies g`vertex2task, g`startTask
    ensures LabelsOf(g.vertex2task) == WithLabel(old(LabelsOf(g.vertex2task)), XState, name)
    ensures v == Find(LabelsOf(g.vertex2task), XState, name) && v < |g.vertex2task|
    ensures AllValid(g.vertex2task) && StartIs(g.vertex2task, LabelsOf(g.vertex2task), g.startTask, startState) && old(g.vertex2task) <= g.vertex2task
    ensures forall t :: t in g.vertex2task ==> t in old(g.vertex2task) || (fresh(t) && JustMade(t))
  {
    hide AllValid, WithLabel, Find;
    var n := |g.vertex2task|;
    ghost var labels := LabelsOf(g.vertex2task);
    v := FindOrAdd(g, g.agentName, name, XState);
    if name != startState {
      AddedKeepsStart(labels, XState, name, startState);
    } else if v == n {
      g.startTask := g.vertex2task[v];
    }
  }

  // The task leads from its state to the next.
  method AddStates(g: XGraph, f: Function, p: Vertex, startState: string) returns (v: Vertex)
    requires AllValid(g.vertex2task) && StartIs(g.vertex2task, LabelsOf(g.vertex2task), g.startTask, startState)
    modifies g`vertex2task, g`edges, g`startTask
    ensures ghost var states := WithLabel(old(LabelsOf(g.vertex2task)), XState, f.currentState);
            LabelsOf(g.vertex2task) == WithLabel(states, XState, f.nextState)
    ensures v == Find(LabelsOf(g.vertex2task), XState, f.currentState) && v < |g.vertex2task|
    ensures g.edges == old(g.edges) + StateLinks(LabelsOf(g.vertex2task), f, p)
    ensures AllValid(g.vertex2task) && StartIs(g.vertex2task, LabelsOf(g.vertex2task), g.startTask, startState) && old(g.vertex2task) <= g.vertex2task
    ensures forall t :: t in g.vertex2task ==> t in old(g.vertex2task) || (fresh(t) && JustMade(t))
  {
    hide AllValid, WithLabel, Find, StartIs;
    v := AddState(g, f.currentState, startState);
    ghost var labels := LabelsOf(g.vertex2task);
    var w := AddState(g, f.nextState, startState);
    FoundThere(labels, LabelsOf(g.vertex2task), XState, f.currentState);
    g.edges := g.edges + {Edge(v, p, State)};
    g.edges := g.edges + {Edge(p, w, State)};
  }

  lemma {:induction false} FoundThere(labels: seq<Label>, more: seq<Label>, kind: TaskType, name: string)
    requires labels <= more && Find(labels, kind, name) < |labels|
    ensures Find(more, kind, name) == Find(labels, kind, name) < |more|
  {
    hide Find;
    FoundStays(labels, more, kind, name);
  }

  // What the condition of a function reads, its state reads.
  method AddCondition(task: Task, state: Task, condition: Condition)
    requires task != state && state.Valid()
    modifies task`hasCondition, state`readOnlyVariables, state`readVariables
    ensures state.Valid() && state.readVariables == old(state.readVariables) + ConditionReads(condition)
    ensures task.hasCondition == (condition.When? || old(task.hasCondition))
  {
    if condition.When? {
      task.hasCondition := true;
      var todo := condition.readOnlyVariables;
      while todo != {}
        invariant todo <= condition.readOnlyVariables && state.Valid()
        invariant state.readVariables == old(state.readVariables) + (condition.readOnlyVariables - todo)
        modifies state`readOnlyVariables, state`readVariables
        decreases todo
      {
        var x :| x in todo;
        state.AddReadOnlyVariable(x);
        todo := todo - {x};
      }
    }
  }

  method AddReads(task: Task, names: seq<string>)
    requires task.Valid()
    modifies task`readOnlyVariables, task`readVariables
    ensures task.Valid() && task.readVariables == old(task.readVariables) + Names(names)
  {
    var k := 0;
    while k < |names|
      invariant 0 <= k <= |names| && task.Valid() && task.readVariables == old(task.readVariables) + Names(names[..k])
    {
      task.AddReadOnlyVariable(names[k]);
      assert names[..k + 1] == names[..k] + [names[k]];
      k := k + 1;
    }
    assert names[..k] == names;
  }

  method AddReadsAndWrites(task: Task, names: seq<string>)
    requires task.Valid()
    modifies task`readVariables, task`writeVariables
    ensures task.Valid() && task.readVariables == old(task.readVariables) + Names(names)
    ensures task.writeVariables == old(task.writeVariables) + Names(names)
  {
    var k := 0;
    while k < |names|
      invariant 0 <= k <= |names| && task.Valid() && task.readVariables == old(task.readVariables) + Names(names[..k])
      invariant task.writeVariables == old(task.writeVariables) + Names(names[..k])
    {
      task.AddReadWriteVariable(names[k]);
      assert names[..k + 1] == names[..k] + [names[k]];
      k := k + 1;
    }
    assert names[..k] == names;
  }

  // The variables of the function.
  method AddVariables(f: Function, task: Task)
    requires task.Valid() && task.readVariables == task.writeVariables == {} && task.taskType == XFunction
    modifies task`readOnlyVariables, task`readVariables, task`writeVariables
    ensures task.Valid() && task.AsNode() == FunctionNode(f)
  {
    AddReads(task, f.readOnlyVariables);
    AddReadsAndWrites(task, f.readWriteVariables);
  }

  lemma {:induction false} MessagesNext(labels: seq<Label>, ms: seq<string>, i: nat, p: Vertex)
    requires i < |ms|
    ensures ghost var before, now := WithMessages(labels, ms[..i]), WithMessages(labels, ms[..i + 1]);
            && now == WithLabel(before, XMessage, ms[i]) && Find(now, XMessage, ms[i]) < |now|
            && OutputLinks(now, ms[..i + 1], p) ==
                 OutputLinks(before, ms[..i], p) + {Edge(p, Find(now, XMessage, ms[i]), Communication)}
            && InputLinks(now, ms[..i + 1], p) ==
                 InputLinks(before, ms[..i], p) + {Edge(Find(now, XMessage, ms[i]), p, Communication)}
  {
    var before, now := WithMessages(labels, ms[..i]), WithMessages(labels, ms[..i + 1]);
    assert ms[..i + 1][..i] == ms[..i];
    assert ms[..i + 1] == ms[..i] + [ms[i]];
    MessagesFound(labels, ms[..i]);
    AllFoundStays(before, now, ms[..i], p);
    hide WithMessages, WithLabel, Find, Found;
  }

  lemma {:induction false} NoMessages(labels: seq<Label>, ms: seq<string>, p: Vertex)
    ensures WithMessages(labels, ms[..0]) == labels && OutputLinks(labels, ms[..0], p) == InputLinks(labels, ms[..0], p) == {}
  {
  }

  // The messages the function posts.
  method AddOutputs(g: XGraph, p: Vertex, ms: seq<string>)
    requires AllValid(g.vertex2task)
    modifies g`vertex2task, g`edges
    ensures LabelsOf(g.vertex2task) == WithMessages(old(LabelsOf(g.vertex2task)), ms)
    ensures g.edges == old(g.edges) + OutputLinks(LabelsOf(g.vertex2task), ms, p)
    ensures AllValid(g.vertex2task) && old(g.vertex2task) <= g.vertex2task
    ensures forall t :: t in g.vertex2task ==> t in old(g.vertex2task) || (fresh(t) && JustMade(t))
  {
    hide AllValid, WithLabel, Find, WithMessages, OutputLinks, InputLinks;
    ghost var labels := LabelsOf(g.vertex2task);
    NoMessages(labels, ms, p);
    var i := 0;
    while i < |ms|
      invariant 0 <= i <= |ms| && AllValid(g.vertex2task)
      invariant LabelsOf(g.vertex2task) == WithMessages(labels, ms[..i])
      invariant g.edges == old(g.edges) + OutputLinks(LabelsOf(g.vertex2task), ms[..i], p)
      invariant old(g.vertex2task) <= g.vertex2task
      invariant forall t :: t in g.vertex2task ==> t in old(g.vertex2task) || (fresh(t) && JustMade(t))
    {
      MessagesNext(labels, ms, i, p);
      var m := GetMessageVertex(g, ms[i], XMessage);
      g.edges := g.edges + {Edge(p, m, Communication)};
      i := i + 1;
    }
    assert ms[..i] == ms;
  }

  // The messages it reads.
  method AddInputs(g: XGraph, p: Vertex, ms: seq<string>)
    requires AllValid(g.vertex2task)
    modifies g`vertex2task, g`edges
    ensures LabelsOf(g.vertex2task) == WithMessages(old(LabelsOf(g.vertex2task)), ms)
    ensures g.edges == old(g.edges) + InputLinks(LabelsOf(g.vertex2task), ms, p)
    ensures AllValid(g.vertex2task) && old(g.vertex2task) <= g.vertex2task
    ensures forall t :: t in g.vertex2task ==> t in old(g.vertex2task) || (fresh(t) && JustMade(t))
  {
    hide AllValid, WithLabel, Find, WithMessages, OutputLinks, InputLinks;
    ghost var labels := LabelsOf(g.vertex2task);
    NoMessages(labels, ms, p);
    var i := 0;
    while i < |ms|
      invariant 0 <= i <= |ms| && AllValid(g.vertex2task)
      invariant LabelsOf(g.vertex2task) == WithMessages(labels, ms[..i])
      invariant g.edges == old(g.edges) + InputLinks(LabelsOf(g.vertex2task), ms[..i], p)
      invariant old(g.vertex2task) <= g.vertex2task
      invariant forall t :: t in g.vertex2task ==> t in old(g.vertex2task) || (fresh(t) && JustMade(t))
    {
      MessagesNext(labels, ms, i, p);
      var m := GetMessageVertex(g, ms[i], XMessage);
      g.edges := g.edges + {Edge(m, p, Communication)};
      i := i + 1;
    }
    assert ms[..i] == ms;
  }

  lemma {:induction false} FunctionAppended(ts: seq<Task>, task: Task, start: Task?, startState: string)
    requires AllValid(ts) && task.Valid() && task !in ts && task.taskType == XFunction
    requires StartIs(ts, LabelsOf(ts), start, startState)
    ensures AllValid(ts + [task]) && StartIs(ts + [task], LabelsOf(ts + [task]), start, startState)
    ensures LabelsOf(ts + [task]) == LabelsOf(ts) + [Label(XFunction, task.name)]
  {
    hide Find, AllValid;
    ExtendedValid(ts, task);
    assert LabelsOf(ts + [task]) == LabelsOf(ts) + [Label(XFunction, task.name)];
    OtherLabelKeepsStart(LabelsOf(ts), Label(XFunction, task.name), startState);
  }

  // The task of a function, and those of its states.
  method AddFunctionTask(g: XGraph, f: Function, startState: string) returns (task: Task, v: Vertex)
    requires AllValid(g.vertex2task) && StartIs(g.vertex2task, LabelsOf(g.vertex2task), g.startTask, startState)
    modifies g`vertex2task, g`edges, g`startTask
    ensures fresh(task) && JustMade(task) && old(g.vertex2task) + [task] <= g.vertex2task
    ensures AllValid(g.vertex2task) && StartIs(g.vertex2task, LabelsOf(g.vertex2task), g.startTask, startState)
    ensures LabelsOf(g.vertex2task) == StatesAfter(old(LabelsOf(g.vertex2task)), f)
    ensures g.edges == old(g.edges) + StateLinks(LabelsOf(g.vertex2task), f, |old(g.vertex2task)|)
    ensures v == Find(LabelsOf(g.vertex2task), XState, f.currentState) && v < |g.vertex2task|
    ensures forall t :: t in g.vertex2task ==> t in old(g.vertex2task) || (fresh(t) && JustMade(t))
  {
    hide AllValid, StartIs, Find, WithLabel, StateLinks;
    ghost var ts, start := g.vertex2task, g.startTask;
    task := new Task(g.agentName, f.name, XFunction);
    var p := g.AddVertex(task);
    FunctionAppended(ts, task, start, startState);
    v := AddStates(g, f, p, startState);
  }

  // What a function makes of the accesses.
  lemma {:induction false} NodesEntered(nodes: seq<Node>, labels: seq<Label>, f: Function, before: seq<Node>, after: seq<Node>, v: Vertex)
    requires |nodes| < |labels| == |before| == |after| && nodes <= before && Ordinary(labels)
    requires forall i :: |nodes| < i < |before| ==> before[i] == Node(labels[i].kind, {}, {})
    requires v < |labels| && v == Find(labels, XState, f.currentState) && v != |nodes|
    requires after[|nodes|] == FunctionNode(f)
    requires after[v] == before[v].(readVars := before[v].readVars + ConditionReads(f.condition))
    requires forall i :: 0 <= i < |after| && i != v && i != |nodes| ==> after[i] == before[i]
    ensures after == NodesAfter(nodes, labels, f)
  {
    hide Find, FunctionNode, ConditionReads;
    forall i | 0 <= i < |after| ensures after[i] == NodesAfter(nodes, labels, f)[i] {
      assert labels[i] == Label(XState, f.currentState) ==> i == v;
    }
  }

  lemma {:induction false} StatesKeepOrdinary(labels: seq<Label>, f: Function)
    requires Ordinary(labels)
    ensures Ordinary(StatesAfter(labels, f))
  {
    hide Ordinary, WithLabel, Find;
    var l1 := labels + [Label(XFunction, f.name)];
    FunctionKeepsOrdinary(labels, f.name);
    LabelKeepsOrdinary(l1, XState, f.currentState);
    LabelKeepsOrdinary(WithLabel(l1, XState, f.currentState), XState, f.nextState);
  }

  // What the function's task, at p, and that of its state, at v, access.
  method EnterAccesses(ghost ts: seq<Task>, f: Function, task: Task, state: Task,
                       ghost p: Vertex, ghost v: Vertex, ghost nodes: seq<Node>)
    requires AllValid(ts) && p < |ts| && ts[p] == task && task.taskType == XFunction && JustMade(task) && Ordinary(LabelsOf(ts))
    requires v < |ts| && ts[v] == state && v == Find(LabelsOf(ts), XState, f.currentState)
    requires |nodes| == p && nodes <= NodesOf(ts)
    requires forall i :: p < i < |ts| ==> NodesOf(ts)[i] == Node(LabelsOf(ts)[i].kind, {}, {})
    modifies task`hasCondition, task`readOnlyVariables, task`readVariables, task`writeVariables
    modifies state`readOnlyVariables, state`readVariables
    ensures AllValid(ts) && task.hasCondition == f.condition.When?
    ensures LabelsOf(ts) == old(LabelsOf(ts)) && NodesOf(ts) == NodesAfter(nodes, LabelsOf(ts), f)
  {
    hide Ordinary, FunctionNode, ConditionReads, NodesAfter, Find;
    ghost var before, labels := NodesOf(ts), LabelsOf(ts);
    assert labels[v] == Label(XState, f.currentState) && labels[p].kind == XFunction;
    assert task != state && forall i :: 0 <= i < |ts| && i != p && i != v ==> ts[i] != task && ts[i] != state;
    hide Distinct;
    AddCondition(task, state, f.condition);
    AddVariables(f, task);
    NodesEntered(nodes, labels, f, before, NodesOf(ts), v);
    assert LabelsOf(ts) == labels;
  }

  // The messages of the function, those it posts first.
  method AddMessages(g: XGraph, f: Function, p: Vertex)
    requires AllValid(g.vertex2task)
    modifies g`vertex2task, g`edges
    ensures LabelsOf(g.vertex2task) == WithMessages(WithMessages(old(LabelsOf(g.vertex2task)), f.outputs), f.inputs)
    ensures ghost var labels := LabelsOf(g.vertex2task);
            g.edges == old(g.edges) + OutputLinks(labels, f.outputs, p) + InputLinks(labels, f.inputs, p)
    ensures AllValid(g.vertex2task) && old(g.vertex2task) <= g.vertex2task
    ensures forall t :: t in g.vertex2task ==> t in old(g.vertex2task) || (fresh(t) && JustMade(t))
  {
    ghost var labels := LabelsOf(g.vertex2task);
    hide *;
    AddOutputs(g, p, f.outputs);
    AddInputs(g, p, f.inputs);
    MessagesFound(labels, f.outputs);
    AllFoundStays(WithMessages(labels, f.outputs), LabelsOf(g.vertex2task), f.outputs, p);
  }

  lemma {:induction false} StartStays(ts: seq<Task>, labels: seq<Label>, more: seq<Task>, longer: seq<Label>, start: Task?, startState: string)
    requires StartIs(ts, labels, start, startState) && ts <= more && labels <= longer && |labels| == |ts| && |longer| == |more|
    requires forall i :: |labels| <= i < |longer| ==> longer[i].kind == XMessage
    ensures StartIs(more, longer, start, startState)
  {
    hide Find;
    var v := Find(labels, XState, startState);
    if v < |labels| {
      FindIs(longer, XState, startState, v);
    } else {
      assert !(Find(longer, XState, startState) < |longer|);
    }
  }

  lemma {:induction false} NodesExtended(nodes: seq<Node>, labels: seq<Label>, more: seq<Label>, f: Function, after: seq<Node>)
    requires |nodes| < |labels| && labels <= more && |after| == |more| && NodesAfter(nodes, labels, f) <= after
    requires forall i :: |labels| <= i < |more| ==> more[i].kind == XMessage && after[i] == Node(XMessage, {}, {})
    ensures after == NodesAfter(nodes, more, f)
  {
    hide FunctionNode;
    var before := NodesAfter(nodes, labels, f);
    forall i | 0 <= i < |after| ensures after[i] == NodesAfter(nodes, more, f)[i] {
      if i < |labels| {
        assert after[i] == before[i] && labels[i] == more[i];
      }
    }
  }

  lemma {:induction false} LinksCollected(labels: seq<Label>, f: Function, p: Vertex)
    ensures ghost var more := LabelsAfter(labels, f);
            Links(more, f, p) == StateLinks(StatesAfter(labels, f), f, p) + OutputLinks(more, f.outputs, p) + InputLinks(more, f.inputs, p)
  {
    var states, more := StatesAfter(labels, f), LabelsAfter(labels, f);
    assert states <= more;
    StatesFound(labels, f);
    hide Find, WithLabel, WithMessages, OutputLinks, InputLinks, LabelsAfter, StatesAfter;
    FoundStays(states, more, XState, f.currentState);
    FoundStays(states, more, XState, f.nextState);
  }

  lemma {:induction false} StatesFound(labels: seq<Label>, f: Function)
    ensures Found(StatesAfter(labels, f), XState, f.currentState) && Found(StatesAfter(labels, f), XState, f.nextState)
  {
    hide Find, WithLabel;
    var l1 := WithLabel(labels + [Label(XFunction, f.name)], XState, f.currentState);
    FoundStays(l1, WithLabel(l1, XState, f.nextState), XState, f.currentState);
  }

  lemma {:induction false} MadeNodes(ts: seq<Task>, more: seq<Task>, task: Task, nodes: seq<Node>)
    requires ts + [task] <= more && nodes == NodesOf(ts)
    requires AllValid(more) && forall t :: t in more ==> t in ts || JustMade(t)
    ensures nodes <= NodesOf(more)
    ensures forall i :: |ts| < i < |more| ==> NodesOf(more)[i] == Node(LabelsOf(more)[i].kind, {}, {})
  {
    forall i | 0 <= i < |ts| ensures NodesOf(more)[i] == nodes[i] {
      assert more[i] == ts[i];
    }
    forall i | |ts| < i < |more| ensures JustMade(more[i]) {
      assert forall j :: 0 <= j < |ts| ==> more[j] == ts[j];
      assert more[i] in more;
    }
  }

  lemma {:induction false} MadeBlank(ts: seq<Task>, more: seq<Task>)
    requires forall t :: t in more ==> t in ts || JustMade(t)
    ensures forall t :: t in more ==> t in ts || t.Blank()
  {
  }

  lemma {:induction false} MessagesMade(ts: seq<Task>, more: seq<Task>, f: Function)
    requires ts <= more && AllValid(more) && forall t :: t in more ==> t in ts || JustMade(t)
    requires LabelsOf(more) == WithMessages(WithMessages(LabelsOf(ts), f.outputs), f.inputs)
    ensures forall i :: |ts| <= i < |more| ==> more[i].taskType == XMessage && NodesOf(more)[i] == Node(XMessage, {}, {})
  {
    var labels, longer := LabelsOf(ts), LabelsOf(more);
    var half := WithMessages(labels, f.outputs);
    hide WithMessages;
    forall i | |ts| <= i < |more| ensures more[i].taskType == XMessage && NodesOf(more)[i] == Node(XMessage, {}, {}) {
      if i < |half| {
        MessagesAddNoFunction(labels, f.outputs, i);
        assert longer[i] == half[i];
      } else {
        MessagesAddNoFunction(half, f.inputs, i);
      }
      assert forall j :: 0 <= j < |ts| ==> more[j] == ts[j];
      assert more[i] in more;
    }
  }

  // The task of a function, those of its states, and what they access.
  method AddFunctionAndStates(g: XGraph, f: Function, startState: string) returns (task: Task)
    requires AllValid(g.vertex2task) && StartIs(g.vertex2task, LabelsOf(g.vertex2task), g.startTask, startState)
    requires Ordinary(LabelsOf(g.vertex2task))
    modifies g`vertex2task, g`edges, g`startTask
    modifies (set t | t in g.vertex2task)`readOnlyVariables, (set t | t in g.vertex2task)`readVariables
    ensures fresh(task) && task.hasCondition == f.condition.When? && old(g.vertex2task) + [task] <= g.vertex2task
    ensures AllValid(g.vertex2task) && StartIs(g.vertex2task, LabelsOf(g.vertex2task), g.startTask, startState)
    ensures LabelsOf(g.vertex2task) == StatesAfter(old(LabelsOf(g.vertex2task)), f)
    ensures g.edges == old(g.edges) + StateLinks(LabelsOf(g.vertex2task), f, |old(g.vertex2task)|)
    ensures NodesOf(g.vertex2task) == NodesAfter(old(NodesOf(g.vertex2task)), LabelsOf(g.vertex2task), f)
    ensures forall t :: t in g.vertex2task ==> t in old(g.vertex2task) || (fresh(t) && t.Blank())
  {
    hide *;
    ghost var ts, labels, nodes := g.vertex2task, LabelsOf(g.vertex2task), NodesOf(g.vertex2task);
    var p := |g.vertex2task|;
    var v;
    task, v := AddFunctionTask(g, f, startState);
    StatesKeepOrdinary(labels, f);
    MadeNodes(ts, g.vertex2task, task, nodes);
    MadeBlank(ts, g.vertex2task);
    EnterAccesses(g.vertex2task, f, task, g.vertex2task[v], p, v, nodes);
  }

  lemma {:induction false} LabelsAfterAre(labels: seq<Label>, f: Function)
    ensures LabelsAfter(labels, f) == WithMessages(WithMessages(StatesAfter(labels, f), f.outputs), f.inputs)
  {
  }

  // What the messages complete.
  lemma {:induction false} FunctionComplete(labels: seq<Label>, nodes: seq<Node>, f: Function, ts: seq<Task>, more: seq<Task>,
                                            start: Task?, startState: string)
    requires ts <= more && AllValid(more) && forall t :: t in more ==> t in ts || JustMade(t)
    requires LabelsOf(ts) == StatesAfter(labels, f) && |nodes| == |labels|
    requires LabelsOf(more) == WithMessages(WithMessages(LabelsOf(ts), f.outputs), f.inputs)
    requires NodesOf(ts) == NodesAfter(nodes, LabelsOf(ts), f) && StartIs(ts, LabelsOf(ts), start, startState)
    ensures LabelsOf(more) == LabelsAfter(labels, f) && StartIs(more, LabelsOf(more), start, startState)
    ensures NodesOf(more) == NodesAfter(nodes, LabelsOf(more), f)
    ensures forall t :: t in more ==> t in ts || t.Blank()
    ensures ghost var all := LabelsOf(more);
            Links(all, f, |labels|) == StateLinks(LabelsOf(ts), f, |labels|) + OutputLinks(all, f.outputs, |labels|) + InputLinks(all, f.inputs, |labels|)
  {
    hide *;
    LabelsAfterAre(labels, f);
    MessagesMade(ts, more, f);
    MadeBlank(ts, more);
    StartStays(ts, LabelsOf(ts), more, LabelsOf(more), start, startState);
    NodesExtended(nodes, LabelsOf(ts), LabelsOf(more), f, NodesOf(more));
    LinksCollected(labels, f, |labels|);
  }

  // The task of a function and all that goes with it.
  method AddFunction(g: XGraph, f: Function, startState: string) returns (task: Task)
    requires AllValid(g.vertex2task) && StartIs(g.vertex2task, LabelsOf(g.vertex2task), g.startTask, startState)
    requires Ordinary(LabelsOf(g.vertex2task))
    modifies g`vertex2task, g`edges, g`startTask
    modifies (set t | t in g.vertex2task)`readOnlyVariables, (set t | t in g.vertex2task)`readVariables
    ensures fresh(task) && task.hasCondition == f.condition.When? && old(g.vertex2task) + [task] <= g.vertex2task
    ensures AllValid(g.vertex2task) && StartIs(g.vertex2task, LabelsOf(g.vertex2task), g.startTask, startState)
    ensures LabelsOf(g.vertex2task) == LabelsAfter(old(LabelsOf(g.vertex2task)), f)
    ensures g.edges == old(g.edges) + Links(LabelsOf(g.vertex2task), f, |old(g.vertex2task)|)
    ensures NodesOf(g.vertex2task) == NodesAfter(old(NodesOf(g.vertex2task)), LabelsOf(g.vertex2task), f)
    ensures forall t :: t in g.vertex2task ==> t in old(g.vertex2task) || (fresh(t) && t.Blank())
  {
    hide *;
    ghost var labels, nodes := LabelsOf(g.vertex2task), NodesOf(g.vertex2task);
    var p := |g.vertex2task|;
    task := AddFunctionAndStates(g, f, startState);
    ghost var ts := g.vertex2task;
    AddMessages(g, f, p);
    FunctionComplete(labels, nodes, f, ts, g.vertex2task, g.startTask, startState);
  }

  // The function tasks have their marks, and those that lead to an end state are end tasks.
  ghost predicate Marked(ts: seq<Task>, fs: seq<Function>, endTasks: set<Task>, endStates: set<string>)
    reads (set t | t in ts)`taskType, (set t | t in ts)`hasCondition
  {
    && (forall t :: t in endTasks ==> t in ts && t.taskType == XFunction)
    && forall j: nat :: j < |fs| ==> MarkedAt(ts, fs, j, endTasks, endStates)
  }

  ghost predicate MarkedAt(ts: seq<Task>, fs: seq<Function>, j: nat, endTasks: set<Task>, endStates: set<string>)
    requires j < |fs|
    reads (set t | t in ts)`taskType, (set t | t in ts)`hasCondition
  {
    && Position(fs, j) < |ts| && ts[Position(fs, j)].hasCondition == fs[j].condition.When?
    && (ts[Position(fs, j)] in endTasks <==> fs[j].nextState in endStates)
  }

  // The graph is that of the functions.
  ghost predicate IsGraphOf(g: XGraph, fs: seq<Function>, startState: string, endStates: set<string>)
    reads g, g.vertex2task
  {
    && AllValid(g.vertex2task) && LabelsOf(g.vertex2task) == AllLabels(fs) && NodesOf(g.vertex2task) == AllNodes(fs)
    && g.edges == StateGraphOf(fs) && StartIs(g.vertex2task, AllLabels(fs), g.startTask, startState)
    && Marked(g.vertex2task, fs, g.endTasks, endStates) && forall t :: t in g.vertex2task ==> t.Blank()
  }

  lemma {:induction false} PositionKept(fs: seq<Function>, more: seq<Function>, j: nat)
    requires fs <= more && j <= |fs|
    ensures Position(more, j) == Position(fs, j)
  {
    assert more[..j] == fs[..j];
    hide AllLabels;
  }

  lemma {:induction false} AllNext(fs: seq<Function>, f: Function)
    ensures AllLabels(fs + [f]) == LabelsAfter(AllLabels(fs), f)
    ensures AllNodes(fs + [f]) == NodesAfter(AllNodes(fs), AllLabels(fs + [f]), f)
    ensures Position(fs + [f], |fs|) == |AllLabels(fs)|
  {
    hide LabelsAfter, NodesAfter;
    assert (fs + [f])[..|fs|] == fs;
  }

  lemma {:induction false} GraphNext(fs: seq<Function>, f: Function)
    ensures StateGraphOf(fs + [f]) == StateGraphOf(fs) + Links(AllLabels(fs + [f]), f, |AllLabels(fs)|)
  {
    hide *;
    var more := fs + [f];
    AllNext(fs, f);
    GraphStep(fs, f);
    assert fs[..|fs|] == fs;
    LinksOfPrefix(fs, more, AllLabels(more), |fs|);
    AllLinksStay(fs, AllLabels(fs), AllLabels(more), |fs|);
  }

  lemma {:induction false} GraphStep(fs: seq<Function>, f: Function)
    ensures ghost var more := fs + [f];
            && StateGraphOf(fs) == AllLinks(AllLabels(fs), fs, |fs|) && AllLabels(fs) <= AllLabels(more)
            && StateGraphOf(more) == AllLinks(AllLabels(more), more, |fs|) + Links(AllLabels(more), f, Position(more, |fs|))
  {
    AllNext(fs, f);
    hide Links, Position, AllLabels, LabelsAfter;
  }

  lemma {:induction false} LinksOfPrefix(fs: seq<Function>, more: seq<Function>, labels: seq<Label>, k: nat)
    requires fs <= more && k <= |fs|
    ensures AllLinks(labels, more, k) == AllLinks(labels, fs, k)
  {
    hide *;
    LastLinks(labels, fs, k);
    LastLinks(labels, more, k);
    if k > 0 {
      LinksOfPrefix(fs, more, labels, k - 1);
      PositionKept(fs, more, k - 1);
    }
  }

  lemma {:induction false} MarkedNext(ts: seq<Task>, more: seq<Task>, fs: seq<Function>, f: Function, task: Task,
                                      ends: set<Task>, endTasks: set<Task>, endStates: set<string>)
    requires Marked(ts, fs, ends, endStates) && ts + [task] <= more && task !in ts && |ts| == |AllLabels(fs)|
    requires task.hasCondition == f.condition.When? && task.taskType == XFunction
    requires endTasks == ends + (if f.nextState in endStates then {task} else {})
    ensures Marked(more, fs + [f], endTasks, endStates)
  {
    hide AllLabels;
    AllNext(fs, f);
    assert more[|ts|] == task;
    forall t | t in endTasks ensures t in more && t.taskType == XFunction {
      if t in ts {
        var i :| 0 <= i < |ts| && ts[i] == t;
        assert more[i] == t;
      }
    }
    forall j: nat | j < |fs + [f]| ensures MarkedAt(more, fs + [f], j, endTasks, endStates) {
      if j < |fs| {
        PositionKept(fs, fs + [f], j);
        assert MarkedAt(ts, fs, j, ends, endStates);
        assert more[Position(fs, j)] == ts[Position(fs, j)];
      }
    }
  }

  lemma {:induction false} GraphIs(g: XGraph, fs: seq<Function>, startState: string, endStates: set<string>)
    requires IsGraphOf(g, fs, startState, endStates)
    ensures AllValid(g.vertex2task) && LabelsOf(g.vertex2task) == AllLabels(fs) && NodesOf(g.vertex2task) == AllNodes(fs)
    ensures g.edges == StateGraphOf(fs) && StartIs(g.vertex2task, AllLabels(fs), g.startTask, startState)
    ensures Marked(g.vertex2task, fs, g.endTasks, endStates) && forall t :: t in g.vertex2task ==> t.Blank()
  {
    hide AllLabels, AllNodes, StateGraphOf, AllValid, StartIs, Marked;
  }

  lemma {:induction false} IsGraph(g: XGraph, fs: seq<Function>, startState: string, endStates: set<string>)
    requires AllValid(g.vertex2task) && LabelsOf(g.vertex2task) == AllLabels(fs) && NodesOf(g.vertex2task) == AllNodes(fs)
    requires g.edges == StateGraphOf(fs) && StartIs(g.vertex2task, AllLabels(fs), g.startTask, startState)
    requires Marked(g.vertex2task, fs, g.endTasks, endStates) && forall t :: t in g.vertex2task ==> t.Blank()
    ensures IsGraphOf(g, fs, startState, endStates)
  {
    hide AllLabels, AllNodes, StateGraphOf, AllValid, StartIs, Marked;
  }

  // The next function.
  method AddNext(g: XGraph, ghost fs: seq<Function>, f: Function, startState: string, endStates: set<string>)
    requires IsGraphOf(g, fs, startState, endStates)
    modifies g`vertex2task, g`edges, g`startTask, g`endTasks
    modifies (set t | t in g.vertex2task)`readOnlyVariables, (set t | t in g.vertex2task)`readVariables
    ensures IsGraphOf(g, fs + [f], startState, endStates)
    ensures forall t :: t in g.vertex2task ==> t in old(g.vertex2task) || fresh(t)
  {
    hide *;
    ghost var ts, ends := g.vertex2task, g.endTasks;
    GraphIs(g, fs, startState, endStates);
    AllOrdinary(fs);
    AllNext(fs, f);
    GraphNext(fs, f);
    var task := AddFunction(g, f, startState);
    if f.nextState in endStates {
      g.endTasks := g.endTasks + {task};
    }
    assert task.taskType == LabelsOf(g.vertex2task)[|ts|].kind;
    MarkedNext(ts, g.vertex2task, fs, f, task, ends, g.endTasks, endStates);
    IsGraph(g, fs + [f], startState, endStates);
  }

  // The state graph of an agent, in a graph that was just made.
  method GenerateStateGraph(g: XGraph, functions: seq<Function>, startState: string, endStates: set<string>)
    requires g.vertex2task == [] && g.edges == {} && g.startTask == null && g.endTasks == {}
    modifies g
    ensures IsGraphOf(g, functions, startState, endStates)
    ensures forall t :: t in g.vertex2task ==> fresh(t)
  {
    hide *;
    NoFunctions(g, startState, endStates);
    var k := 0;
    while k < |functions|
      invariant 0 <= k <= |functions| && IsGraphOf(g, functions[..k], startState, endStates)
      invariant forall t :: t in g.vertex2task ==> fresh(t)
    {
      AddNext(g, functions[..k], functions[k], startState, endStates);
      assert functions[..k + 1] == functions[..k] + [functions[k]];
      k := k + 1;
    }
    assert functions[..k] == functions;
  }

  lemma {:induction false} NoFunctions(g: XGraph, startState: string, endStates: set<string>)
    requires g.vertex2task == [] && g.edges == {} && g.startTask == null && g.endTasks == {}
    ensures IsGraphOf(g, [], startState, endStates)
    ensures forall fs: seq<Function> {:trigger fs[..0]} :: fs[..0] == []
  {
    assert LabelsOf(g.vertex2task) == AllLabels([]) && NodesOf(g.vertex2task) == AllNodes([]);
  }

  // A function accesses what it declares.
  lemma {:induction false} NodeOfFunction(fs: seq<Function>, j: nat, k: nat)
    requires j < k <= |fs|
    ensures Position(fs, j) < |AllNodes(fs[..k])| && AllNodes(fs[..k])[Position(fs, j)] == FunctionNode(fs[j])
    decreases k
  {
    hide *;
    var p := Position(fs, j);
    AllPlaced(fs, j, k);
    assert fs[..k] == fs[..k - 1] + [fs[k - 1]];
    AllNext(fs[..k - 1], fs[k - 1]);
    PositionKept(fs[..k], fs, k - 1);
    PlacedIs(AllLabels(fs[..k]), fs[j], p);
    if j < k - 1 {
      NodeOfFunction(fs, j, k - 1);
      FunctionNodeKept(AllNodes(fs[..k - 1]), AllLabels(fs[..k]), fs[k - 1], p);
    } else {
      FunctionNodeAdded(AllNodes(fs[..k - 1]), AllLabels(fs[..k]), fs[k - 1]);
    }
  }

  lemma {:induction false} PlacedIs(labels: seq<Label>, f: Function, p: Vertex)
    requires Placed(labels, f, p)
    ensures p < |labels| && labels[p] == Label(XFunction, f.name)
  {
  }

  lemma {:induction false} FunctionNodeKept(nodes: seq<Node>, labels: seq<Label>, f: Function, p: Vertex)
    requires p < |nodes| && p < |labels| && labels[p].kind == XFunction
    ensures NodesAfter(nodes, labels, f)[p] == nodes[p]
  {
  }

  lemma {:induction false} FunctionNodeAdded(nodes: seq<Node>, labels: seq<Label>, f: Function)
    requires |nodes| < |labels|
    ensures NodesAfter(nodes, labels, f)[|nodes|] == FunctionNode(f)
  {
  }

  lemma {:induction false} StartLeaves(fs: seq<Function>, state: string) returns (e: Edge)
    requires state in CurrentStates(fs)
    ensures ghost var v, labels := Find(AllLabels(fs), XState, state), AllLabels(fs);
            v < |labels| && labels[v] == Label(XState, state) && e in OutEdges(StateGraphOf(fs), v)
  {
    hide AllLabels, StateGraphOf, Find, Links, Position;
    var f :| f in fs && f.currentState == state;
    var j: nat :| j < |fs| && fs[j] == f;
    PlacedIn(fs, j);
    StateLinksOf(AllLabels(fs), f, Position(fs, j));
    e := Edge(Find(AllLabels(fs), XState, state), Position(fs, j), State);
    LinkThere(fs, j, e);
  }

  // What the check for cycles lets through can be compiled.
  lemma {:induction false} CanBeCompiled(g: XGraph, fs: seq<Function>, startState: string, endStates: set<string>)
    requires IsGraphOf(g, fs, startState, endStates) && Acyclic(Pairs(StateGraphOf(fs))) && startState in CurrentStates(fs)
    ensures g.ReadyToGenerate()
  {
    hide *;
    GraphIs(g, fs, startState, endStates);
    MarkedEnds(g.vertex2task, fs, g.endTasks, endStates);
    SameKinds(g.vertex2task, AllLabels(fs));
    FunctionsMakeStateGraph(fs, NodesOf(g.vertex2task));
    var e := StartLeaves(fs, startState);
    StartThere(g.vertex2task, AllLabels(fs), g.startTask, startState);
    IsReady(g, e);
  }

  lemma {:induction false} MarkedEnds(ts: seq<Task>, fs: seq<Function>, endTasks: set<Task>, endStates: set<string>)
    requires Marked(ts, fs, endTasks, endStates)
    ensures forall t :: t in endTasks ==> t in ts && t.taskType == XFunction
  {
    hide MarkedAt;
  }

  lemma {:induction false} SameKinds(ts: seq<Task>, labels: seq<Label>)
    requires LabelsOf(ts) == labels
    ensures |NodesOf(ts)| == |labels| && forall v :: 0 <= v < |labels| ==> NodesOf(ts)[v].kind == labels[v].kind
  {
  }

  lemma {:induction false} StartThere(ts: seq<Task>, labels: seq<Label>, start: Task?, state: string)
    requires StartIs(ts, labels, start, state) && LabelsOf(ts) == labels && AllValid(ts)
    requires Find(labels, XState, state) < |labels| && labels[Find(labels, XState, state)] == Label(XState, state)
    ensures start in ts && start.taskType == XState && GetVertex(ts, start) == Find(labels, XState, state)
  {
    hide Find, GetVertex;
  }

  lemma {:induction false} IsReady(g: XGraph, e: Edge)
    requires AllValid(g.vertex2task) && IsStateGraph(NodesOf(g.vertex2task), g.edges)
    requires g.startTask in g.vertex2task && g.startTask.taskType == XState
    requires e in OutEdges(g.edges, GetVertex(g.vertex2task, g.startTask))
    requires forall t :: t in g.endTasks ==> t in g.vertex2task && t.taskType == XFunction
    requires forall t :: t in g.vertex2task ==> t.Blank()
    ensures g.ReadyToGenerate()
  {
    StateGraphInRange(NodesOf(g.vertex2task), g.edges);
    hide IsStateGraph, InRange, Pairs, OutEdges, GetVertex;
  }

  lemma {:induction false} StateGraphInRange(nodes: seq<Node>, es: set<Edge>)
    requires IsStateGraph(nodes, es)
    ensures InRange(Pairs(es), |nodes|)
  {
    hide InRange, Acyclic;
  }
}
