/** Building a graph in place: node construction and the wiring calls an external builder
    makes (`new XNode(...)`, `attachInput`, `connect`, `addInput`, setting an input's default
    value or an Expression node's expression). */
module Builder {
  import opened Values
  import opened ExprTree
  import opened Wiring

  class Blueprint {
    var nodes: seq<Node>
    var inTarget: map<InRef, OutRef>
    var initial: map<InRef, Value>
    var fanout: map<OutRef, seq<InRef>>
    var exitTarget: map<ExitRef, EnterRef>

    /** The graph built so far, as the interpreter sees it. */
    function Snapshot(): Graph
      reads this
    {
      Graph(nodes, inTarget, initial, fanout, exitTarget)
    }

    ghost predicate Valid()
      reads this
    {
      WellFormed(Snapshot())
    }

    constructor ()
      ensures Valid() && Snapshot() == EmptyGraph()
    {
      nodes, inTarget, initial, fanout, exitTarget := [], map[], map[], map[], map[];
    }

    /** `new EntryNode(argCount)`: a negative parameter count is a RangeError. */
    method NewEntry(argCount: int) returns (r: Result<NodeId>)
      requires Valid()
      modifies this
      ensures Valid()
      ensures argCount < 0 ==> r == Err(RangeError) && Snapshot() == old(Snapshot())
      ensures argCount >= 0 ==> r == Ok(|old(nodes)|)
      ensures argCount >= 0 ==> Snapshot() == old(Snapshot()).(nodes := old(nodes) + [Entry(argCount)])
    {
      if argCount < 0 {
        return Err(RangeError);
      }
      r := Ok(|nodes|);
      nodes := nodes + [Entry(argCount)];
      NewNodeWellFormed(old(Snapshot()), Entry(argCount));
    }

    /** `new EndNode(hasReturn)`, `new VarNode(symbol)`, `new WhileNode()`, `new IfNode()` and
        `new ExpressionNode()` (which starts with no inputs and no expression). */
    method NewNode(n: Node) returns (id: NodeId)
      requires Valid()
      requires !n.Entry?
      requires n.Expression? ==> n.inputSymbols == [] && n.expression == None
      modifies this
      ensures Valid()
      ensures id == |old(nodes)| && nodes == old(nodes) + [n]
      ensures Snapshot() == old(Snapshot()).(nodes := old(nodes) + [n])
    {
      id := |nodes|;
      nodes := nodes + [n];
      NewNodeWellFormed(old(Snapshot()), n);
    }

    /** `FlowNode.attachInput(inputIndex, port)`. */
    method AttachInput(node: NodeId, inputIndex: nat, o: OutRef) returns (r: Outcome)
      requires Valid()
      modifies this
      ensures Valid()
      ensures r.Fail? <==> Wiring.AttachInput(old(Snapshot()), node, inputIndex, o).Err?
      ensures r.Fail? ==> r.error == TypeError && Snapshot() == old(Snapshot())
      ensures r.Pass? ==> Snapshot() == Attach(old(Snapshot()), InRef(node, inputIndex), o)
    {
      var i := InRef(node, inputIndex);
      if !(node < |nodes| && inputIndex < InputCount(nodes[node])) {
        return Fail(TypeError);
      }
      if !(o.node < |nodes| && o.index < OutputCount(nodes[o.node])) {
        return Fail(TypeError);
      }
      // InputPort.attach: append to the output's fan-out, then rebind the input
      var targets := if o in fanout then fanout[o] else [];
      fanout := fanout[o := targets + [i]];
      inTarget := inTarget[i := o];
      AttachInputWellFormed(old(Snapshot()), node, inputIndex, o);
      r := Pass;
    }

    /** `FlowNode.connect(exit, next, enter)`. */
    method Connect(node: NodeId, exit: nat, next: NodeId, enter: nat) returns (r: Outcome)
      requires Valid()
      modifies this
      ensures Valid()
      ensures r.Fail? <==> Wiring.Connect(old(Snapshot()), node, exit, next, enter).Err?
      ensures r.Fail? ==> r.error == TypeError && Snapshot() == old(Snapshot())
      ensures r.Pass? ==> Snapshot() == Wiring.Connect(old(Snapshot()), node, exit, next, enter).value
    {
      var x := ExitRef(node, exit);
      if !(node < |nodes| && exit < ExitCount(nodes[node])) || next >= |nodes| {
        return Fail(TypeError);
      }
      if enter < EnterCount(nodes[next]) {
        exitTarget := exitTarget[x := EnterRef(next, enter)];
      } else {
        exitTarget := exitTarget - {x};
      }
      ConnectWellFormed(old(Snapshot()), node, exit, next, enter);
      r := Pass;
    }

    /** `ExpressionNode.addInput(symbol)`. */
    method AddInput(node: NodeId, symbol: string) returns (r: Outcome)
      requires Valid() && IsExpressionNode(Snapshot(), node)
      modifies this
      ensures Valid()
      ensures r.Fail? <==> symbol in old(nodes)[node].inputSymbols
      ensures r.Fail? ==> r.error == PlainError && Snapshot() == old(Snapshot())
      ensures r.Pass? ==> Snapshot() == Wiring.AddInput(old(Snapshot()), node, symbol).value
    {
      var n := nodes[node];
      if symbol in n.inputSymbols {
        return Fail(PlainError);
      }
      nodes := nodes[node := Expression(n.inputSymbols + [symbol], n.expression)];
      AddInputWellFormed(old(Snapshot()), node, symbol);
      r := Pass;
    }

    /** `port.initalValue = value` on an existing input port. */
    method SetInitialValue(i: InRef, value: Value)
      requires Valid() && HasInput(Snapshot(), i)
      modifies this
      ensures Valid()
      ensures Snapshot() == old(Snapshot()).(initial := old(initial)[i := value])
    {
      InitialValueWellFormed(Snapshot(), i, value);
      initial := initial[i := value];
    }

    /** `node.expression = e` on an Expression node. */
    method SetExpression(node: NodeId, e: Expr)
      requires Valid() && IsExpressionNode(Snapshot(), node)
      modifies this
      ensures Valid()
      ensures nodes == old(nodes)[node := Expression(old(nodes)[node].inputSymbols, Some(e))]
      ensures inTarget == old(inTarget) && initial == old(initial)
      ensures fanout == old(fanout) && exitTarget == old(exitTarget)
    {
      nodes := nodes[node := Expression(nodes[node].inputSymbols, Some(e))];
      SetExpressionWellFormed(old(Snapshot()), node, e);
    }
  }

  lemma InitialValueWellFormed(g: Graph, i: InRef, value: Value)
    requires WellFormed(g) && HasInput(g, i)
    ensures WellFormed(g.(initial := g.initial[i := value]))
  {
    var r := g.(initial := g.initial[i := value]);
    forall o | o in r.fanout ensures Targets(r, o) == Targets(g, o) { }
  }

  lemma NewNodeWellFormed(g: Graph, n: Node)
    requires WellFormed(g)
    requires n.Expression? ==> n.inputSymbols == []
    ensures WellFormed(g.(nodes := g.nodes + [n]))
  {
    var r := g.(nodes := g.nodes + [n]);
    forall i | HasInput(g, i) ensures HasInput(r, i) { }
    forall o | HasOutput(g, o) ensures HasOutput(r, o) { }
    forall x | HasExit(g, x) ensures HasExit(r, x) { }
    forall e | IsEnterPort(g, e) || IsHolePort(g, e) ensures IsEnterPort(r, e) || IsHolePort(r, e) { }
    forall k | 0 <= k < |r.nodes| && r.nodes[k].Expression? ensures Distinct(r.nodes[k].inputSymbols) {
      if k < |g.nodes| {
        assert r.nodes[k] == g.nodes[k];
      }
    }
  }

  lemma SetExpressionWellFormed(g: Graph, node: NodeId, e: Expr)
    requires WellFormed(g) && IsExpressionNode(g, node)
    ensures WellFormed(g.(nodes := g.nodes[node := Expression(g.nodes[node].inputSymbols, Some(e))]))
  {
    var r := g.(nodes := g.nodes[node := Expression(g.nodes[node].inputSymbols, Some(e))]);
    forall i | HasInput(g, i) ensures HasInput(r, i) { }
    forall o | HasOutput(g, o) ensures HasOutput(r, o) { }
    forall x | HasExit(g, x) ensures HasExit(r, x) { }
    forall e | IsEnterPort(g, e) || IsHolePort(g, e) ensures IsEnterPort(r, e) || IsHolePort(r, e) { }
  }
}
