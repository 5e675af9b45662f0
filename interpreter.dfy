/** The interpreter as it runs: node behaviours and the control loop acting on an
    `ExecutionContext` in place. Each method is proved to do what the matching function
    of modules Expressions, Nodes and Machine describes. */
module Interpreter {
  import opened Values
  import opened ExprTree
  import opened Wiring
  import State
  import Expressions
  import Nodes
  import Machine
  import opened Context

  /** `Expression.evaluate` on the context. */
  method EvaluateExpr(ctx: ExecutionContext, node: NodeId, e: Expr) returns (r: Result<Value>)
    modifies ctx
    ensures State.Out(r, ctx.Snapshot()) == Expressions.Evaluate(ctx.graph, old(ctx.Snapshot()), node, e)
    decreases e
  {
    match e
    case ConstantExp(v) =>
      return Ok(v);
    case InputExp(symbol) =>
      var port := GetInputPort(ctx.graph, node, symbol);
      if port.Err? {
        return Err(port.error);
      }
      var read := ctx.Input(port.value);
      if read.Err? {
        return Err(read.error);
      }
      if read.value.None? {
        return Err(ReferenceError);
      }
      return Ok(read.value.value);
    case Binary(op, left, right) =>
      if left.None? || right.None? {
        return Err(ReferenceError);
      }
      var l := EvaluateExpr(ctx, node, left.value);
      if l.Err? {
        return l;
      }
      var rv := EvaluateExpr(ctx, node, right.value);
      if rv.Err? {
        return rv;
      }
      return ApplyBinary(op, l.value, rv.value);
  }

  /** `VarNode.execute`. */
  method ExecuteVar(ctx: ExecutionContext, n: NodeId) returns (r: Result<Nodes.NodeReturn>)
    requires n < |ctx.graph.nodes| && ctx.graph.nodes[n].Var?
    modifies ctx
    ensures State.Out(r, ctx.Snapshot()) == Nodes.ExecuteVar(ctx.graph, old(ctx.Snapshot()), n)
  {
    var symbol := ctx.graph.nodes[n].symbol;
    var data: Option<Value> := None;
    if Target(ctx.graph, InRef(n, 0)).Some? {
      var fetched := ctx.Input(InRef(n, 0));
      data := fetched.value;
    }
    var outData: Option<Value>;
    if data.Some? {
      ctx.Write(symbol, data.value);
      outData := data;
    } else {
      outData := ctx.Read(symbol);
    }
    if outData.Some? {
      ctx.Output(OutRef(n, 0), outData.value);
    } else if |Targets(ctx.graph, OutRef(n, 0))| > 0 {
      return Err(ReferenceError);
    }
    return Ok(Nodes.Exit(ExitRef(n, 0)));
  }

  /** `WhileNode.execute`. */
  method ExecuteWhile(ctx: ExecutionContext, n: NodeId, enter: EnterRef) returns (r: Result<Nodes.NodeReturn>)
    requires n < |ctx.graph.nodes| && ctx.graph.nodes[n].While?
    modifies ctx
    ensures State.Out(r, ctx.Snapshot()) == Nodes.ExecuteWhile(ctx.graph, old(ctx.Snapshot()), n, enter)
  {
    if enter == EnterRef(n, 0) {
      var cond := ctx.Input(InRef(n, 0));
      if cond.Err? {
        return Err(cond.error);
      }
      if Truthy(cond.value) {
        return Ok(Nodes.Subline(ExitRef(n, 0), State.LoopState(n, true, false)));
      }
      return Ok(Nodes.Exit(ExitRef(n, 1)));
    } else if enter == EnterRef(n, 1) {
      var st := ctx.TryPeekState(n);
      if st.Some? && st.value.LoopState? && st.value.node == n {
        ctx.MarkBreak();
        return Ok(Nodes.Interrupt);
      }
      return Err(SyntaxError);
    }
    return Err(ReferenceError);
  }

  /** `WhileNode.resume`. */
  method ResumeWhile(ctx: ExecutionContext, n: NodeId, st: State.FlowState) returns (r: Result<Nodes.NodeReturn>)
    requires n < |ctx.graph.nodes| && ctx.graph.nodes[n].While?
    modifies ctx
    ensures State.Out(r, ctx.Snapshot()) == Nodes.ResumeWhile(ctx.graph, old(ctx.Snapshot()), n, st)
  {
    var cond := ctx.Input(InRef(n, 0));
    if cond.Err? {
      return Err(cond.error);
    }
    if Truthy(cond.value) && !Nodes.CallBreak(st) {
      return Ok(Nodes.Subline(ExitRef(n, 0), st));
    }
    return Ok(Nodes.Exit(ExitRef(n, 1)));
  }

  /** `IfNode.execute`. */
  method ExecuteIf(ctx: ExecutionContext, n: NodeId) returns (r: Result<Nodes.NodeReturn>)
    requires n < |ctx.graph.nodes| && ctx.graph.nodes[n].If?
    modifies ctx
    ensures State.Out(r, ctx.Snapshot()) == Nodes.ExecuteIf(ctx.graph, old(ctx.Snapshot()), n)
  {
    var cond := ctx.Input(InRef(n, 0));
    if cond.Err? {
      return Err(cond.error);
    }
    if Truthy(cond.value) {
      return Ok(Nodes.Exit(ExitRef(n, 0)));
    }
    return Ok(Nodes.Exit(ExitRef(n, 1)));
  }

  /** `ExpressionNode.execute`. */
  method ExecuteExpression(ctx: ExecutionContext, n: NodeId) returns (r: Result<Nodes.NodeReturn>)
    requires n < |ctx.graph.nodes| && ctx.graph.nodes[n].Expression?
    modifies ctx
    ensures State.Out(r, ctx.Snapshot()) == Nodes.ExecuteExpression(ctx.graph, old(ctx.Snapshot()), n)
  {
    var node := ctx.graph.nodes[n];
    if |node.inputSymbols| == 0 {
      return Err(RangeError);
    }
    if node.expression.None? {
      return Err(ReferenceError);
    }
    var v := EvaluateExpr(ctx, n, node.expression.value);
    if v.Err? {
      return Err(v.error);
    }
    ctx.Output(OutRef(n, 0), v.value);
    return Ok(Nodes.Exit(ExitRef(n, 0)));
  }

  /** `node.execute(context, enter)`, dispatched on the node's kind. */
  method ExecuteNode(ctx: ExecutionContext, n: NodeId, enter: EnterRef) returns (r: Result<Nodes.NodeReturn>)
    modifies ctx
    ensures State.Out(r, ctx.Snapshot()) == Nodes.Execute(ctx.graph, old(ctx.Snapshot()), n, enter)
  {
    if n >= |ctx.graph.nodes| {
      return Err(TypeError);
    }
    match ctx.graph.nodes[n]
    case Var(_) => r := ExecuteVar(ctx, n);
    case While => r := ExecuteWhile(ctx, n, enter);
    case If => r := ExecuteIf(ctx, n);
    case Expression(_, _) => r := ExecuteExpression(ctx, n);
    case Entry(_) => r := Err(PlainError);
    case End(_) => r := Err(PlainError);
  }

  /** `node.resume(context, state)`, dispatched on the node's kind. */
  method ResumeNode(ctx: ExecutionContext, n: NodeId, st: State.FlowState) returns (r: Result<Nodes.NodeReturn>)
    modifies ctx
    ensures State.Out(r, ctx.Snapshot()) == Nodes.Resume(ctx.graph, old(ctx.Snapshot()), n, st)
  {
    if n >= |ctx.graph.nodes| {
      return Err(TypeError);
    }
    if ctx.graph.nodes[n].While? {
      r := ResumeWhile(ctx, n, st);
    } else {
      r := Err(PlainError);
    }
  }

  /** The top of the `flowStart` loop: an End node ends the run with its return value;
      any other node is executed through the enter port. */
  method EnterNode(ctx: ExecutionContext, curEnter: EnterRef, ghost fuel: nat) returns (st: Machine.Status)
    modifies ctx
    ensures st.Stopped? ==>
              Machine.Run(ctx.graph, old(ctx.Snapshot()), Machine.AtEnter(curEnter), fuel + 1)
              == Machine.RunOut(st.halt, ctx.Snapshot())
    ensures st.Running? ==>
              st.cfg.AtExit?
              && Machine.Run(ctx.graph, old(ctx.Snapshot()), Machine.AtEnter(curEnter), fuel + 1)
                 == Machine.Run(ctx.graph, ctx.Snapshot(), st.cfg, fuel)
  {
    var g := ctx.graph;
    var node := curEnter.node;
    if node >= |g.nodes| {
      return Machine.Stopped(Machine.Threw(TypeError));
    }
    if g.nodes[node].End? {
      if !g.nodes[node].hasReturn {
        return Machine.Stopped(Machine.Done(None));
      }
      var returnValue := ctx.Input(InRef(node, 0));
      if returnValue.Err? {
        return Machine.Stopped(Machine.Threw(returnValue.error));
      }
      if returnValue.value.None? {
        return Machine.Stopped(Machine.Threw(ReferenceError));
      }
      return Machine.Stopped(Machine.Done(returnValue.value));
    }
    var executed := ExecuteNode(ctx, node, curEnter);
    if executed.Err? {
      return Machine.Stopped(Machine.Threw(executed.error));
    }
    return Machine.Running(Machine.AtExit(node, executed.value));
  }

  /** One pass of the `flowEnd` loop: open a sub-flow or resume the node, or go to the
      exit's target, or end the sub-flow by popping its parent's frame and resuming it. */
  method FollowExit(ctx: ExecutionContext, node: NodeId, curExit: Nodes.NodeReturn) returns (st: Machine.Status)
    modifies ctx
    ensures Machine.StepOut(st, ctx.Snapshot()) == Machine.Step(ctx.graph, old(ctx.Snapshot()), Machine.AtExit(node, curExit))
  {
    var g := ctx.graph;
    if curExit.Subline? {
      var sublineEntry := ExitTarget(g, curExit.port);
      if sublineEntry.Some? {
        if sublineEntry.value.node >= |g.nodes| {
          return Machine.Stopped(Machine.Threw(TypeError));
        }
        ctx.Push(node, curExit.state);
        return Machine.Running(Machine.AtEnter(sublineEntry.value));
      }
      var resumed := ResumeNode(ctx, node, curExit.state);
      if resumed.Err? {
        return Machine.Stopped(Machine.Threw(resumed.error));
      }
      return Machine.Running(Machine.AtExit(node, resumed.value));
    }
    var nextEnter := if curExit.Exit? then ExitTarget(g, curExit.port) else None;
    if !ctx.HasParent() && !(nextEnter.Some? && IsEnterPort(g, nextEnter.value)) {
      return Machine.Stopped(Machine.Threw(SyntaxError));
    }
    if nextEnter.None? {
      var popped := ctx.Pop();
      var frame := popped.value;
      if !frame.state.alive {
        return Machine.Running(Machine.AtExit(node, Nodes.Interrupt));
      }
      var resumed := ResumeNode(ctx, frame.node, frame.state);
      if resumed.Err? {
        return Machine.Stopped(Machine.Threw(resumed.error));
      }
      return Machine.Running(Machine.AtExit(frame.node, resumed.value));
    }
    if !(IsEnterPort(g, nextEnter.value) || IsHolePort(g, nextEnter.value)) {
      return Machine.Stopped(Machine.Threw(TypeError));
    }
    return Machine.Running(Machine.AtEnter(nextEnter.value));
  }

  /** The `flowEnd` loop of `executeCore`: follows what node `node` returned, resuming nodes
      and popping frames, until an enter port is reached (a running status at that port,
      for the `flowStart` loop to enter), the run stops, or the fuel runs out. `fuelLeft`
      is the fuel that remains. */
  method FollowExits(ctx: ExecutionContext, node: NodeId, curExit: Nodes.NodeReturn, fuel: nat)
    returns (st: Machine.Status, fuelLeft: nat)
    modifies ctx
    ensures st.Stopped? ==>
              Machine.Run(ctx.graph, old(ctx.Snapshot()), Machine.AtExit(node, curExit), fuel)
              == Machine.RunOut(st.halt, ctx.Snapshot())
    ensures st.Running? ==>
              st.cfg.AtEnter? && fuelLeft < fuel
              && Machine.Run(ctx.graph, old(ctx.Snapshot()), Machine.AtExit(node, curExit), fuel)
                 == Machine.Run(ctx.graph, ctx.Snapshot(), st.cfg, fuelLeft)
  {
    var g := ctx.graph;
    ghost var goal := Machine.Run(g, ctx.Snapshot(), Machine.AtExit(node, curExit), fuel);
    var cfg := Machine.AtExit(node, curExit);
    fuelLeft := fuel;
    while cfg.AtExit?
      invariant fuelLeft <= fuel && (cfg.AtEnter? ==> fuelLeft < fuel)
      invariant Machine.Run(g, ctx.Snapshot(), cfg, fuelLeft) == goal
      decreases fuelLeft
    {
      if fuelLeft == 0 {
        return Machine.Stopped(Machine.OutOfFuel), fuelLeft;
      }
      fuelLeft := fuelLeft - 1;
      ghost var c0 := ctx.Snapshot();
      st := FollowExit(ctx, cfg.node, cfg.ret);
      if st.Stopped? {
        Machine.RunStopped(g, c0, cfg, fuelLeft, ctx.Snapshot(), st.halt);
        return;
      }
      Machine.RunRunning(g, c0, cfg, fuelLeft, ctx.Snapshot(), st.cfg);
      cfg := st.cfg;
    }
    return Machine.Running(cfg), fuelLeft;
  }

  /** `executeCore`: the `flowStart` loop enters nodes; what each node returns is followed
      by the `flowEnd` loop until the next enter port. Each node entered and each return
      followed is one step of the machine, and at most `fuel` steps are taken. */
  method ExecuteCore(ctx: ExecutionContext, enter: EnterRef, fuel: nat) returns (h: Machine.Halt)
    modifies ctx
    ensures Machine.RunOut(h, ctx.Snapshot()) == Machine.Run(ctx.graph, old(ctx.Snapshot()), Machine.AtEnter(enter), fuel)
  {
    var g := ctx.graph;
    ghost var goal := Machine.Run(g, ctx.Snapshot(), Machine.AtEnter(enter), fuel);
    var curEnter := enter;
    var fuelLeft := fuel;
    while true
      invariant Machine.Run(g, ctx.Snapshot(), Machine.AtEnter(curEnter), fuelLeft) == goal
      decreases fuelLeft
    {
      if fuelLeft == 0 {
        return Machine.OutOfFuel;
      }
      fuelLeft := fuelLeft - 1;
      var entered := EnterNode(ctx, curEnter, fuelLeft);
      if entered.Stopped? {
        return entered.halt;
      }
      var followed;
      followed, fuelLeft := FollowExits(ctx, entered.cfg.node, entered.cfg.ret, fuelLeft);
      if followed.Stopped? {
        return followed.halt;
      }
      curEnter := followed.cfg.enter;
    }
  }

  /** `execute(flowFunction, args)`: checks the entry node and the argument count, outputs
      the arguments on the entry node's outputs in order, checks the first enter port and
      runs the loop in a fresh context, wrapping an error from the loop with the context's
      state. */
  method Execute(g: Graph, f: Machine.FlowFunction, args: seq<Value>, fuel: nat) returns (r: Machine.Completion)
    ensures r == Machine.Invoke(g, f, args, fuel)
  {
    var entry := f.entryNode;
    if entry >= |g.nodes| || !g.nodes[entry].Entry? {
      return Machine.Thrown(TypeError);
    }
    var ctx := new ExecutionContext(g, f.localInits);
    var firstEnter := ExitTarget(g, ExitRef(entry, 0));
    if |args| != g.nodes[entry].argCount {
      return Machine.Thrown(TypeError);
    }
    for i := 0 to |args|
      invariant ctx.graph == g
      invariant ctx.Snapshot() == Machine.BindArgs(g, State.Fresh(f.localInits), entry, args, i)
    {
      ctx.Output(OutRef(entry, i), args[i]);
    }
    if !(firstEnter.Some? && IsEnterPort(g, firstEnter.value)) {
      return Machine.Thrown(TypeError);
    }
    var h := ExecuteCore(ctx, firstEnter.value, fuel);
    match h
    case Done(v) => r := Machine.Returned(v);
    case Threw(e) => r := Machine.Wrapped(ctx.Rethrow(e));
    case OutOfFuel => r := Machine.Diverged;
  }
}
