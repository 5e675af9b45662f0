/** The node graph as an arena: nodes addressed by handles, ports by (node, index) pairs,
    and the wiring (input bindings, output fan-out lists, exit targets) kept in maps. */
module Wiring {
  import opened Values
  import opened ExprTree

  type NodeId = nat

  /** `node.inputs[index]`, `node.outputs[index]`, `node.enters[index]`, `node.exits[index]`. */
  datatype InRef = InRef(node: NodeId, index: nat)
  datatype OutRef = OutRef(node: NodeId, index: nat)
  datatype EnterRef = EnterRef(node: NodeId, index: nat)
  datatype ExitRef = ExitRef(node: NodeId, index: nat)

  /** The concrete node classes. */
  datatype Node =
    | Entry(argCount: nat)
    | End(hasReturn: bool)
    | Var(symbol: string)
    | While
    | If
    | Expression(inputSymbols: seq<string>, expression: Option<Expr>)

  /** Port arities fixed by each node's constructor (an Expression node grows by `addInput`). */
  function InputCount(n: Node): nat {
    match n
    case Entry(_) => 0
    case End(hasReturn) => if hasReturn then 1 else 0
    case Var(_) => 1
    case While => 1
    case If => 1
    case Expression(symbols, _) => |symbols|
  }

  function OutputCount(n: Node): nat {
    match n
    case Entry(argCount) => argCount
    case End(_) => 0
    case Var(_) => 1
    case While => 0
    case If => 0
    case Expression(_, _) => 1
  }

  function EnterCount(n: Node): nat {
    match n
    case Entry(_) => 0
    case While => 2
    case _ => 1
  }

  function ExitCount(n: Node): nat {
    match n
    case End(_) => 0
    case While => 2
    case If => 2
    case _ => 1
  }

  /** The arena. `inTarget` is `InputPort._target`, `initial` is `InputPort.initalValue`,
      `fanout` is `OutputPort.targets`, `exitTarget` is `ExitPort.target`. */
  datatype Graph = Graph(
    nodes: seq<Node>,
    inTarget: map<InRef, OutRef>,
    initial: map<InRef, Value>,
    fanout: map<OutRef, seq<InRef>>,
    exitTarget: map<ExitRef, EnterRef>)

  function EmptyGraph(): Graph {
    Graph([], map[], map[], map[], map[])
  }

  function NodeAt(g: Graph, id: NodeId): Option<Node> {
    if id < |g.nodes| then Some(g.nodes[id]) else None
  }

  predicate HasInput(g: Graph, i: InRef) {
    i.node < |g.nodes| && i.index < InputCount(g.nodes[i.node])
  }

  predicate HasOutput(g: Graph, o: OutRef) {
    o.node < |g.nodes| && o.index < OutputCount(g.nodes[o.node])
  }

  predicate HasExit(g: Graph, x: ExitRef) {
    x.node < |g.nodes| && x.index < ExitCount(g.nodes[x.node])
  }

  /** An `EnterPort`: an existing enter other than a While node's break enter. */
  predicate IsEnterPort(g: Graph, e: EnterRef) {
    e.node < |g.nodes| && e.index < EnterCount(g.nodes[e.node]) && !(g.nodes[e.node].While? && e.index == 1)
  }

  /** A `HolePort`: the break enter of a While node. */
  predicate IsHolePort(g: Graph, e: EnterRef) {
    e.node < |g.nodes| && g.nodes[e.node].While? && e.index == 1
  }

  /** The output an input is bound to, if any. */
  function Target(g: Graph, i: InRef): Option<OutRef> {
    if i in g.inTarget then Some(g.inTarget[i]) else None
  }

  function InitialOf(g: Graph, i: InRef): Option<Value> {
    if i in g.initial then Some(g.initial[i]) else None
  }

  /** The inputs an output pushes to, in wiring order. */
  function Targets(g: Graph, o: OutRef): seq<InRef> {
    if o in g.fanout then g.fanout[o] else []
  }

  function ExitTarget(g: Graph, x: ExitRef): Option<EnterRef> {
    if x in g.exitTarget then Some(g.exitTarget[x]) else None
  }

  // ---------------------------------------------------------------------------
  // Wiring operations

  /** `InputPort.attach`: the input's target becomes `o`, and the input is appended to
      `o`'s fan-out list; nothing is removed from a previously bound output's list. */
  function Attach(g: Graph, i: InRef, o: OutRef): (r: Graph)
    ensures Target(r, i) == Some(o)
    ensures Targets(r, o) == Targets(g, o) + [i]
    ensures forall o' :: o' != o ==> Targets(r, o') == Targets(g, o')
    ensures forall i' :: i' != i ==> Target(r, i') == Target(g, i')
    ensures r.nodes == g.nodes && r.initial == g.initial && r.exitTarget == g.exitTarget
  {
    g.(inTarget := g.inTarget[i := o], fanout := g.fanout[o := Targets(g, o) + [i]])
  }

  /** `FlowNode.attachInput`: a missing input port or output port is a foreign object. */
  function AttachInput(g: Graph, node: NodeId, inputIndex: nat, o: OutRef): (r: Result<Graph>)
    ensures r.Ok? <==> HasInput(g, InRef(node, inputIndex)) && HasOutput(g, o)
    ensures r.Err? ==> r.error == TypeError
    ensures r.Ok? ==> r.value == Attach(g, InRef(node, inputIndex), o)
  {
    if !HasInput(g, InRef(node, inputIndex)) then Err(TypeError)
    else if !HasOutput(g, o) then Err(TypeError)
    else Ok(Attach(g, InRef(node, inputIndex), o))
  }

  /** `FlowNode.connect`: `this.exits[exit].target = next.enters[enter]`. Writing to a
      missing exit throws; a missing enter reads as `undefined` and clears the target. */
  function Connect(g: Graph, node: NodeId, exit: nat, next: NodeId, enter: nat): (r: Result<Graph>)
    ensures r.Ok? <==> HasExit(g, ExitRef(node, exit)) && next < |g.nodes|
    ensures r.Ok? ==> r.value.nodes == g.nodes && r.value.inTarget == g.inTarget && r.value.fanout == g.fanout
                      && r.value.initial == g.initial
    ensures r.Ok? ==> forall x :: x != ExitRef(node, exit) ==> ExitTarget(r.value, x) == ExitTarget(g, x)
    ensures r.Ok? && enter < EnterCount(g.nodes[next]) ==>
              ExitTarget(r.value, ExitRef(node, exit)) == Some(EnterRef(next, enter))
    ensures r.Ok? && enter >= EnterCount(g.nodes[next]) ==> ExitTarget(r.value, ExitRef(node, exit)).None?
  {
    var x := ExitRef(node, exit);
    if !HasExit(g, x) || next >= |g.nodes| then Err(TypeError)
    else if enter < EnterCount(g.nodes[next]) then Ok(g.(exitTarget := g.exitTarget[x := EnterRef(next, enter)]))
    else Ok(g.(exitTarget := g.exitTarget - {x}))
  }

  function IndexOf(s: seq<string>, x: string): (r: Option<nat>)
    ensures r.Some? ==> r.value < |s| && s[r.value] == x
    ensures r.Some? ==> forall k :: 0 <= k < r.value ==> s[k] != x
    ensures r.None? <==> x !in s
  {
    if |s| == 0 then None
    else if s[0] == x then Some(0)
    else match IndexOf(s[1..], x)
         case None => None
         case Some(k) => Some(k + 1)
  }

  predicate IsExpressionNode(g: Graph, node: NodeId) {
    node < |g.nodes| && g.nodes[node].Expression?
  }

  /** `ExpressionNode.addInput`: a duplicate symbol is an error; otherwise a new input
      port is appended under that symbol. */
  function AddInput(g: Graph, node: NodeId, symbol: string): (r: Result<Graph>)
    requires IsExpressionNode(g, node)
    ensures r.Err? <==> symbol in g.nodes[node].inputSymbols
    ensures r.Err? ==> r.error == PlainError
    ensures r.Ok? ==> IsExpressionNode(r.value, node) && |r.value.nodes| == |g.nodes|
    ensures r.Ok? ==> r.value.nodes[node].inputSymbols == g.nodes[node].inputSymbols + [symbol]
    ensures r.Ok? ==> r.value.nodes[node].expression == g.nodes[node].expression
    ensures r.Ok? ==> forall n :: 0 <= n < |g.nodes| && n != node ==> r.value.nodes[n] == g.nodes[n]
    ensures r.Ok? ==> r.value.inTarget == g.inTarget && r.value.initial == g.initial
                      && r.value.fanout == g.fanout && r.value.exitTarget == g.exitTarget
  {
    var n := g.nodes[node];
    if symbol in n.inputSymbols then Err(PlainError)
    else Ok(g.(nodes := g.nodes[node := Expression(n.inputSymbols + [symbol], n.expression)]))
  }

  /** `ExpressionNode.getInputPort`; asking a node of another class is a foreign-object error. */
  function GetInputPort(g: Graph, node: NodeId, symbol: string): (r: Result<InRef>)
    ensures r.Ok? <==> IsExpressionNode(g, node) && symbol in g.nodes[node].inputSymbols
    ensures r.Ok? ==> r.value.node == node && HasInput(g, r.value)
    ensures r.Ok? ==> g.nodes[node].inputSymbols[r.value.index] == symbol
  {
    if !IsExpressionNode(g, node) then Err(TypeError)
    else match IndexOf(g.nodes[node].inputSymbols, symbol)
         case None => Err(PlainError)
         case Some(k) => Ok(InRef(node, k))
  }

  predicate Distinct(s: seq<string>) {
    forall j, k :: 0 <= j < k < |s| ==> s[j] != s[k]
  }

  /** What the node constructors and the wiring operations guarantee of a graph: every
      wired port exists, a bound input is listed in its output's fan-out, exits lead to
      enter or hole ports, and an Expression node's input symbols are distinct. */
  predicate WellFormed(g: Graph) {
    && (forall i :: i in g.inTarget ==> HasInput(g, i) && HasOutput(g, g.inTarget[i]))
    && (forall i :: i in g.inTarget ==> i in Targets(g, g.inTarget[i]))
    && (forall i :: i in g.initial ==> HasInput(g, i))
    && (forall o :: o in g.fanout ==> HasOutput(g, o))
    && (forall o, k :: o in g.fanout && 0 <= k < |g.fanout[o]| ==> HasInput(g, g.fanout[o][k]))
    && (forall x :: x in g.exitTarget ==> HasExit(g, x))
    && (forall x :: x in g.exitTarget ==> IsEnterPort(g, g.exitTarget[x]) || IsHolePort(g, g.exitTarget[x]))
    && (forall n :: 0 <= n < |g.nodes| && g.nodes[n].Expression? ==> Distinct(g.nodes[n].inputSymbols))
  }

  // ---------------------------------------------------------------------------
  // Properties of the wiring

  function Count(s: seq<InRef>, i: InRef): nat {
    multiset(s)[i]
  }

  /** Attaching lists the input exactly once more in the new output's fan-out and leaves
      every other count alone. */
  lemma AttachAppendsOnce(g: Graph, i: InRef, o: OutRef)
    ensures Count(Targets(Attach(g, i, o), o), i) == Count(Targets(g, o), i) + 1
    ensures forall i' :: i' != i ==> Count(Targets(Attach(g, i, o), o), i') == Count(Targets(g, o), i')
  {
    assert multiset(Targets(g, o) + [i]) == multiset(Targets(g, o)) + multiset{i};
  }

  /** Rebinding an input to a second output: the binding follows the last attach only, but
      the first output's fan-out list still holds the input (nothing removes it). */
  lemma RebindKeepsStaleFanout(g: Graph, i: InRef, o1: OutRef, o2: OutRef)
    requires o1 != o2
    ensures Target(Attach(Attach(g, i, o1), i, o2), i) == Some(o2)
    ensures i in Targets(Attach(Attach(g, i, o1), i, o2), o1)
    ensures i in Targets(Attach(Attach(g, i, o1), i, o2), o2)
  {
    var g1 := Attach(g, i, o1);
    assert Targets(g1, o1)[|Targets(g1, o1)| - 1] == i;
  }

  /** With distinct symbols, `addInput` keeps every earlier symbol on its port and gives the
      new symbol the next port; the symbols stay distinct. */
  lemma AddInputThenGet(g: Graph, node: NodeId, symbol: string, other: string)
    requires IsExpressionNode(g, node) && Distinct(g.nodes[node].inputSymbols)
    requires AddInput(g, node, symbol).Ok?
    ensures Distinct(AddInput(g, node, symbol).value.nodes[node].inputSymbols)
    ensures GetInputPort(AddInput(g, node, symbol).value, node, symbol)
              == Ok(InRef(node, |g.nodes[node].inputSymbols|))
    ensures other != symbol ==>
              GetInputPort(AddInput(g, node, symbol).value, node, other) == GetInputPort(g, node, other)
  {
    var s := g.nodes[node].inputSymbols;
    var g' := AddInput(g, node, symbol).value;
    var s' := s + [symbol];
    assert g'.nodes[node].inputSymbols == s';
    IndexOfDistinct(s', symbol, |s|);
    if other != symbol {
      IndexOfAppend(s, symbol, other);
    }
  }

  lemma IndexOfDistinct(s: seq<string>, x: string, k: nat)
    requires Distinct(s) && k < |s| && s[k] == x
    ensures IndexOf(s, x) == Some(k)
  {
  }

  lemma {:induction false} IndexOfAppend(s: seq<string>, y: string, x: string)
    requires x != y
    ensures IndexOf(s + [y], x) == IndexOf(s, x)
  {
    if |s| == 0 {
      assert IndexOf([y], x) == IndexOf([y][1..], x);
    } else {
      assert (s + [y])[1..] == s[1..] + [y];
      if s[0] != x {
        IndexOfAppend(s[1..], y, x);
      }
    }
  }

  /** A successful `attachInput` keeps the graph well formed. */
  lemma AttachInputWellFormed(g: Graph, node: NodeId, inputIndex: nat, o: OutRef)
    requires WellFormed(g) && AttachInput(g, node, inputIndex, o).Ok?
    ensures WellFormed(AttachInput(g, node, inputIndex, o).value)
  {
    var i := InRef(node, inputIndex);
    var r := Attach(g, i, o);
    forall i' | i' in r.inTarget
      ensures i' in Targets(r, r.inTarget[i'])
    {
      if i' != i {
        assert Target(r, i') == Target(g, i');
        if g.inTarget[i'] != o {
          assert Targets(r, g.inTarget[i']) == Targets(g, g.inTarget[i']);
        } else {
          assert Targets(r, o) == Targets(g, o) + [i];
        }
      }
    }
    forall o', k | o' in r.fanout && 0 <= k < |r.fanout[o']|
      ensures HasInput(r, r.fanout[o'][k])
    {
      if o' == o {
        assert r.fanout[o'] == Targets(g, o) + [i];
      } else {
        assert r.fanout[o'] == Targets(g, o');
      }
    }
  }

  /** Replacing the control wiring by one whose every exit exists and leads to an enter or
      hole port keeps the graph well formed. */
  lemma RewiredWellFormed(g: Graph, exits: map<ExitRef, EnterRef>)
    requires WellFormed(g)
    requires forall x :: x in exits ==> HasExit(g, x) && (IsEnterPort(g, exits[x]) || IsHolePort(g, exits[x]))
    ensures WellFormed(g.(exitTarget := exits))
  {
    var r := g.(exitTarget := exits);
    forall o | o in r.fanout ensures Targets(r, o) == Targets(g, o) { }
  }

  /** A successful `connect` keeps the graph well formed. */
  lemma ConnectWellFormed(g: Graph, node: NodeId, exit: nat, next: NodeId, enter: nat)
    requires WellFormed(g) && Connect(g, node, exit, next, enter).Ok?
    ensures WellFormed(Connect(g, node, exit, next, enter).value)
  {
    var x := ExitRef(node, exit);
    if enter < EnterCount(g.nodes[next]) {
      RewiredWellFormed(g, g.exitTarget[x := EnterRef(next, enter)]);
    } else {
      RewiredWellFormed(g, g.exitTarget - {x});
    }
  }

  /** A successful `addInput` keeps the graph well formed: ports only ever get added. */
  lemma AddInputWellFormed(g: Graph, node: NodeId, symbol: string)
    requires WellFormed(g) && IsExpressionNode(g, node) && AddInput(g, node, symbol).Ok?
    ensures WellFormed(AddInput(g, node, symbol).value)
  {
    var r := AddInput(g, node, symbol).value;
    forall i | HasInput(g, i) ensures HasInput(r, i) {
      if i.node == node {
        assert InputCount(r.nodes[node]) == InputCount(g.nodes[node]) + 1;
      }
    }
    forall o | HasOutput(g, o) ensures HasOutput(r, o) {
      if o.node == node {
        assert OutputCount(r.nodes[node]) == 1;
      }
    }
    forall x | HasExit(g, x) ensures HasExit(r, x) {
      if x.node == node {
        assert ExitCount(r.nodes[node]) == 1;
      }
    }
    forall e | IsEnterPort(g, e) || IsHolePort(g, e) ensures IsEnterPort(r, e) || IsHolePort(r, e) {
      if e.node == node {
        assert IsEnterPort(r, e);
      }
    }
    forall o | o in r.fanout ensures Targets(r, o) == Targets(g, o) { }
    forall n | 0 <= n < |r.nodes| && r.nodes[n].Expression? ensures Distinct(r.nodes[n].inputSymbols) {
      if n == node {
        var s := g.nodes[node].inputSymbols;
        assert r.nodes[n].inputSymbols == s + [symbol];
      }
    }
  }
}
