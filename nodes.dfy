/** What each concrete node does when the control loop enters it (`execute`) and when one
    of its sub-flows finishes (`resume`). */
module Nodes {
  import opened Values
  import opened Wiring
  import opened State
  import Expressions

  /** `NodeReturn`: leave through an exit port, open a sub-flow through a subline port
      with the state to save, or report that the current flow was interrupted (null). */
  datatype NodeReturn =
    | Exit(port: ExitRef)
    | Subline(port: ExitRef, state: FlowState)
    | Interrupt

  /** Whether a saved state asks its loop to stop (`whileState.callBreak`; a plain
      FlowState has no such field, which reads as false). */
  predicate CallBreak(st: FlowState) {
    st.LoopState? && st.callBreak
  }

  /** `VarNode.execute`: a bound write port is read first; a non-null value is stored in the
      symbol and output, otherwise the symbol's current value is output. With nothing to
      output the node still exits, unless something is wired to its read port. */
  function ExecuteVar(g: Graph, c: Ctx, n: NodeId): (r: Out<NodeReturn>)
    requires n < |g.nodes| && g.nodes[n].Var?
    ensures r.ctx.stack == c.stack
    ensures r.res.Ok? ==> r.res.value == Exit(ExitRef(n, 0))
    ensures r.res.Err? ==> r.res.error == ReferenceError
  {
    var symbol := g.nodes[n].symbol;
    var fetched := if Target(g, InRef(n, 0)).Some? then Input(g, c, InRef(n, 0)) else Out(Ok(None), c);
    var data := fetched.res.value;
    var c1 := if data.Some? then Write(fetched.ctx, symbol, data.value) else fetched.ctx;
    var outData := if data.Some? then data else Read(fetched.ctx, symbol);
    if outData.Some? then Out(Ok(Exit(ExitRef(n, 0))), Output(g, c1, OutRef(n, 0), outData.value))
    else if |Targets(g, OutRef(n, 0))| > 0 then Out(Err(ReferenceError), c1)
    else Out(Ok(Exit(ExitRef(n, 0))), c1)
  }

  /** `WhileNode.execute`. Through the main enter the condition is read: truthy opens the
      body with a fresh LoopState, otherwise the loop exits. Through the break hole the
      loop's own LoopState must be on top of the stack; it is marked and the flow is
      interrupted. Any other enter is a ReferenceError. */
  function ExecuteWhile(g: Graph, c: Ctx, n: NodeId, enter: EnterRef): (r: Out<NodeReturn>)
    requires n < |g.nodes| && g.nodes[n].While?
    ensures enter != EnterRef(n, 1) || r.res.Err? ==> r.ctx.stack == c.stack
    ensures r.ctx.symbols == c.symbols
    ensures r.res.Ok? && r.res.value.Subline? ==> r.res.value == Subline(ExitRef(n, 0), LoopState(n, true, false))
    ensures enter == EnterRef(n, 0) ==>
              var cond := Input(g, c, InRef(n, 0));
              r.ctx == cond.ctx
              && (cond.res.Err? ==> r.res == Err(cond.res.error))
              && (cond.res.Ok? ==>
                    (r.res == Ok(Subline(ExitRef(n, 0), LoopState(n, true, false))) <==> Truthy(cond.res.value))
                    && (r.res == Ok(Exit(ExitRef(n, 1))) <==> !Truthy(cond.res.value)))
    ensures enter != EnterRef(n, 0) && enter != EnterRef(n, 1) ==> r == Out(Err(ReferenceError), c)
  {
    if enter == EnterRef(n, 0) then
      var cond := Input(g, c, InRef(n, 0));
      if cond.res.Err? then Out(Err(cond.res.error), cond.ctx)
      else if Truthy(cond.res.value) then Out(Ok(Subline(ExitRef(n, 0), LoopState(n, true, false))), cond.ctx)
      else Out(Ok(Exit(ExitRef(n, 1))), cond.ctx)
    else if enter == EnterRef(n, 1) then
      var st := TryPeekState(c, n);
      if st.Some? && st.value.LoopState? && st.value.node == n then Out(Ok(Interrupt), MarkBreak(c))
      else Out(Err(SyntaxError), c)
    else Out(Err(ReferenceError), c)
  }

  /** `WhileNode.resume`: the condition is read again; the body runs once more when it is
      truthy and no break was requested, otherwise the loop exits. */
  function ResumeWhile(g: Graph, c: Ctx, n: NodeId, st: FlowState): (r: Out<NodeReturn>)
    requires n < |g.nodes| && g.nodes[n].While?
    ensures r.ctx.stack == c.stack && r.ctx.symbols == c.symbols
    ensures CallBreak(st) ==> r.res.Ok? ==> r.res.value == Exit(ExitRef(n, 1))
    ensures r.res.Ok? && r.res.value.Subline? ==> r.res.value == Subline(ExitRef(n, 0), st)
    ensures var cond := Input(g, c, InRef(n, 0));
            r.ctx == cond.ctx
            && (cond.res.Err? ==> r.res == Err(cond.res.error))
            && (cond.res.Ok? ==>
                  (r.res == Ok(Subline(ExitRef(n, 0), st)) <==> Truthy(cond.res.value) && !CallBreak(st))
                  && (r.res == Ok(Exit(ExitRef(n, 1))) <==> !(Truthy(cond.res.value) && !CallBreak(st))))
  {
    var cond := Input(g, c, InRef(n, 0));
    if cond.res.Err? then Out(Err(cond.res.error), cond.ctx)
    else if Truthy(cond.res.value) && !CallBreak(st) then Out(Ok(Subline(ExitRef(n, 0), st)), cond.ctx)
    else Out(Ok(Exit(ExitRef(n, 1))), cond.ctx)
  }

  /** `IfNode.execute`: the first exit when the condition is truthy, the second otherwise. */
  function ExecuteIf(g: Graph, c: Ctx, n: NodeId): (r: Out<NodeReturn>)
    requires n < |g.nodes| && g.nodes[n].If?
    ensures r.ctx.stack == c.stack && r.ctx.symbols == c.symbols
    ensures r.res.Err? <==> Input(g, c, InRef(n, 0)).res.Err?
  {
    var cond := Input(g, c, InRef(n, 0));
    if cond.res.Err? then Out(Err(cond.res.error), cond.ctx)
    else Out(Ok(Exit(ExitRef(n, if Truthy(cond.res.value) then 0 else 1))), cond.ctx)
  }

  /** `ExpressionNode.execute`: a node without inputs is a RangeError and one without an
      expression a ReferenceError; otherwise the expression's value is output on the
      node's result port and the node exits. */
  function ExecuteExpression(g: Graph, c: Ctx, n: NodeId): (r: Out<NodeReturn>)
    requires n < |g.nodes| && g.nodes[n].Expression?
    ensures r.ctx.stack == c.stack
    ensures r.res.Ok? ==> r.res.value == Exit(ExitRef(n, 0))
    ensures |g.nodes[n].inputSymbols| == 0 ==> r == Out(Err(RangeError), c)
    ensures |g.nodes[n].inputSymbols| > 0 && g.nodes[n].expression.None? ==> r == Out(Err(ReferenceError), c)
    ensures |g.nodes[n].inputSymbols| > 0 && g.nodes[n].expression.Some? ==>
              var v := Expressions.Evaluate(g, c, n, g.nodes[n].expression.value);
              (v.res.Ok? ==> r.res.Ok? && r.ctx == Output(g, v.ctx, OutRef(n, 0), v.res.value)
                             && OutRef(n, 0) in r.ctx.ports && r.ctx.ports[OutRef(n, 0)] == v.res.value)
              && (v.res.Err? ==> r == Out(Err(v.res.error), v.ctx))
  {
    var node := g.nodes[n];
    if |node.inputSymbols| == 0 then Out(Err(RangeError), c)
    else if node.expression.None? then Out(Err(ReferenceError), c)
    else
      var v := Expressions.Evaluate(g, c, n, node.expression.value);
      if v.res.Err? then Out(Err(v.res.error), v.ctx)
      else Out(Ok(Exit(ExitRef(n, 0))), Output(g, v.ctx, OutRef(n, 0), v.res.value))
  }

  /** `node.execute(context, enter)` dispatched on the node's kind. Entry and End nodes keep
      the base `FlowNode.execute`, which throws a plain Error; a handle that names no node
      is the TypeError the loop raises for a foreign node object. */
  function Execute(g: Graph, c: Ctx, n: NodeId, enter: EnterRef): (r: Out<NodeReturn>)
    ensures r.res.Err? ==> r.ctx.stack == c.stack
    ensures r.res.Ok? && r.res.value.Exit? ==> r.res.value.port.node == n
    ensures r.res.Ok? && r.res.value.Subline? ==> r.res.value.state == LoopState(n, true, false)
  {
    if n >= |g.nodes| then Out(Err(TypeError), c)
    else match g.nodes[n]
      case Var(_) => ExecuteVar(g, c, n)
      case While => ExecuteWhile(g, c, n, enter)
      case If => ExecuteIf(g, c, n)
      case Expression(_, _) => ExecuteExpression(g, c, n)
      case Entry(_) => Out(Err(PlainError), c)
      case End(_) => Out(Err(PlainError), c)
  }

  /** `node.resume(context, state)`: only a While node resumes; every other node keeps the
      base `FlowNode.resume`, which throws a plain Error. */
  function Resume(g: Graph, c: Ctx, n: NodeId, st: FlowState): (r: Out<NodeReturn>)
    ensures r.ctx.stack == c.stack && r.ctx.symbols == c.symbols
    ensures r.res.Ok? ==> n < |g.nodes| && g.nodes[n].While?
    ensures r.res.Ok? && r.res.value.Subline? ==> r.res.value.state == st
  {
    if n >= |g.nodes| then Out(Err(TypeError), c)
    else if g.nodes[n].While? then ResumeWhile(g, c, n, st)
    else Out(Err(PlainError), c)
  }

  /** Breaking out of a loop: entering the hole of a While node whose LoopState is on top
      of the stack interrupts the flow and marks that state, so that the loop stops at its
      next resume; with any other top frame it is a SyntaxError and nothing changes. */
  lemma BreakMarksOwnLoop(g: Graph, c: Ctx, w: NodeId)
    requires w < |g.nodes| && g.nodes[w].While?
    ensures var r := Execute(g, c, w, EnterRef(w, 1));
            if |c.stack| > 0 && c.stack[|c.stack| - 1].node == w
               && c.stack[|c.stack| - 1].state.LoopState? && c.stack[|c.stack| - 1].state.node == w
            then r.res == Ok(Interrupt) && |r.ctx.stack| == |c.stack|
                 && CallBreak(r.ctx.stack[|c.stack| - 1].state)
                 && r.ctx.stack[|c.stack| - 1].node == w
            else r == Out(Err(SyntaxError), c)
  {
  }

  /** A loop whose break was requested exits at its next resume, whatever the condition. */
  lemma ResumeAfterBreakExits(g: Graph, c: Ctx, w: NodeId, st: FlowState)
    requires w < |g.nodes| && g.nodes[w].While? && CallBreak(st)
    requires Target(g, InRef(w, 0)).Some? || InitialOf(g, InRef(w, 0)).Some?
    ensures Resume(g, c, w, st).res == Ok(Exit(ExitRef(w, 1)))
  {
  }

  /** An If node chooses its branch by the truthiness of the condition it reads: the first
      exit exactly when that value is truthy. */
  lemma IfBranches(g: Graph, c: Ctx, n: NodeId)
    requires n < |g.nodes| && g.nodes[n].If?
    requires Input(g, c, InRef(n, 0)).res.Ok?
    ensures Execute(g, c, n, EnterRef(n, 0)).res == Ok(Exit(ExitRef(n, 0)))
            <==> Truthy(Input(g, c, InRef(n, 0)).res.value)
    ensures Execute(g, c, n, EnterRef(n, 0)).res == Ok(Exit(ExitRef(n, 1)))
            <==> !Truthy(Input(g, c, InRef(n, 0)).res.value)
  {
  }

  /** A While node entered through its main enter opens its body exactly when the condition
      it reads is truthy and exits otherwise; on resume it runs the body again exactly when
      the condition is truthy and no break was requested; any enter other than the main
      enter and the break hole is a ReferenceError. */
  lemma WhileBranches(g: Graph, c: Ctx, n: NodeId, enter: EnterRef, st: FlowState)
    requires n < |g.nodes| && g.nodes[n].While?
    ensures var cond := Input(g, c, InRef(n, 0));
            cond.res.Ok? ==>
              (var body := Ok(Subline(ExitRef(n, 0), LoopState(n, true, false)));
               Execute(g, c, n, EnterRef(n, 0)).res == body <==> Truthy(cond.res.value))
              && (Execute(g, c, n, EnterRef(n, 0)).res == Ok(Exit(ExitRef(n, 1))) <==> !Truthy(cond.res.value))
              && (Resume(g, c, n, st).res == Ok(Subline(ExitRef(n, 0), st)) <==> Truthy(cond.res.value) && !CallBreak(st))
              && (Resume(g, c, n, st).res == Ok(Exit(ExitRef(n, 1))) <==> !Truthy(cond.res.value) || CallBreak(st))
    ensures enter != EnterRef(n, 0) && enter != EnterRef(n, 1) ==> Execute(g, c, n, enter) == Out(Err(ReferenceError), c)
  {
  }

  /** A Var node whose write port receives a value stores it in its symbol and outputs it;
      one with an unbound write port outputs the symbol's current value. */
  lemma VarStoresAndOutputs(g: Graph, c: Ctx, n: NodeId)
    requires n < |g.nodes| && g.nodes[n].Var?
    ensures var r := Execute(g, c, n, EnterRef(n, 0));
            var s := g.nodes[n].symbol;
            var data := if Target(g, InRef(n, 0)).Some? then Input(g, c, InRef(n, 0)).res.value else None;
            var outData := if data.Some? then data else Read(c, s);
            var fetched := if Target(g, InRef(n, 0)).Some? then Input(g, c, InRef(n, 0)).ctx else c;
            var c1 := if data.Some? then Write(fetched, s, data.value) else fetched;
            (outData.Some? ==> r == Out(Ok(Exit(ExitRef(n, 0))), Output(g, c1, OutRef(n, 0), outData.value)))
            && (outData.None? ==> r.ctx == c1)
            && (outData.Some? ==> r.res.Ok? && OutRef(n, 0) in r.ctx.ports && r.ctx.ports[OutRef(n, 0)] == outData.value)
            && (data.Some? ==> s in r.ctx.symbols && r.ctx.symbols[s] == data.value)
            && (outData.None? ==> (r.res.Err? <==> |Targets(g, OutRef(n, 0))| > 0))
  {
    var s := g.nodes[n].symbol;
    var data := if Target(g, InRef(n, 0)).Some? then Input(g, c, InRef(n, 0)).res.value else None;
    if data.Some? {
      var c1 := Write(Input(g, c, InRef(n, 0)).ctx, s, data.value);
      // the value output on the read port is the one just written, so any write the
      // fan-out makes to `s` stores that same value
      OutputEffect(g, c1, OutRef(n, 0), data.value, s);
    }
  }
}
