/** The control loop of `executeCore` as a small-step machine, and the `execute` entry
    point. A configuration is either an enter port about to be entered (the top of the
    `flowStart` loop) or a node's return value about to be followed (the top of the
    `flowEnd` loop). */
module Machine {
  import opened Values
  import opened Wiring
  import opened State
  import opened Nodes

  datatype Config =
    | AtEnter(enter: EnterRef)
    | AtExit(node: NodeId, ret: NodeReturn)

  /** How a run ends: the function returned (with or without a value), an error was
      thrown, or the fuel ran out before either happened. */
  datatype Halt = Done(value: Option<Value>) | Threw(error: ErrorKind) | OutOfFuel

  datatype Status = Running(cfg: Config) | Stopped(halt: Halt)

  datatype StepOut = StepOut(status: Status, ctx: Ctx)

  datatype RunOut = RunOut(halt: Halt, ctx: Ctx)

  /** Continue with a node's return value, or stop on the error it threw. */
  function Continue(x: Out<NodeReturn>, n: NodeId): (r: StepOut)
    ensures r.ctx == x.ctx
    ensures x.res.Ok? ==> r.status == Running(AtExit(n, x.res.value))
    ensures x.res.Err? ==> r.status == Stopped(Threw(x.res.error))
  {
    if x.res.Err? then StepOut(Stopped(Threw(x.res.error)), x.ctx)
    else StepOut(Running(AtExit(n, x.res.value)), x.ctx)
  }

  /** How one step may change the stack: not at all, by pushing one frame, by popping the
      top frame, or by rewriting the state of the top frame in place. */
  predicate StackMove(s: seq<Frame>, t: seq<Frame>) {
    || t == s
    || (|t| == |s| + 1 && t[..|s|] == s)
    || (|s| > 0 && t == s[..|s| - 1])
    || (|s| > 0 && |t| == |s| && t[..|s| - 1] == s[..|s| - 1] && t[|s| - 1].node == s[|s| - 1].node)
  }

  /** The `flowStart` part of the loop: an End node finishes the run, returning the value
      read from its input when it has one (null there is a ReferenceError); any other node
      is executed through the enter port. A handle naming no node is a TypeError. */
  function StepEnter(g: Graph, c: Ctx, e: EnterRef): (r: StepOut)
    ensures r.status.Stopped? ==> r.ctx.stack == c.stack
    ensures r.status.Running? ==> r.status.cfg.AtExit? && r.status.cfg.node == e.node
    ensures r.status.Stopped? && r.status.halt.Done? ==> e.node < |g.nodes| && g.nodes[e.node].End?
  {
    var n := e.node;
    if n >= |g.nodes| then StepOut(Stopped(Threw(TypeError)), c)
    else if g.nodes[n].End? then
      if !g.nodes[n].hasReturn then StepOut(Stopped(Done(None)), c)
      else
        var rv := Input(g, c, InRef(n, 0));
        if rv.res.Err? then StepOut(Stopped(Threw(rv.res.error)), rv.ctx)
        else if rv.res.value.None? then StepOut(Stopped(Threw(ReferenceError)), rv.ctx)
        else StepOut(Stopped(Done(rv.res.value)), rv.ctx)
    else
      Continue(Execute(g, c, n, e), n)
  }

  /** The `flowEnd` part of the loop. A sub-flow request saves the node's state and enters
      the subline's target, or resumes the node at once when the subline is not wired. An
      exit (or an interruption) enters the exit's target. Without a target the current
      sub-flow is over: the parent frame is popped and its node resumed, or, when the
      frame's flow is no longer alive, the interruption travels further up. At the top
      level, leaving without an enter port to go to is a SyntaxError. */
  function StepExit(g: Graph, c: Ctx, n: NodeId, ret: NodeReturn): (r: StepOut)
    ensures r.ctx.symbols == c.symbols
    ensures r.status.Running? && r.status.cfg.AtEnter? ==> r.status.cfg.enter.node < |g.nodes|
  {
    if ret.Subline? then
      var t := ExitTarget(g, ret.port);
      if t.Some? then
        if t.value.node < |g.nodes| then StepOut(Running(AtEnter(t.value)), Push(c, n, ret.state))
        else StepOut(Stopped(Threw(TypeError)), c)
      else Continue(Resume(g, c, n, ret.state), n)
    else
      var next := if ret.Exit? then ExitTarget(g, ret.port) else None;
      if !HasParent(c) && !(next.Some? && IsEnterPort(g, next.value)) then StepOut(Stopped(Threw(SyntaxError)), c)
      else if next.None? then
        var p := Pop(c);
        var frame := p.res.value;
        if !frame.state.alive then StepOut(Running(AtExit(n, Interrupt)), p.ctx)
        else Continue(Resume(g, p.ctx, frame.node, frame.state), frame.node)
      else if !(IsEnterPort(g, next.value) || IsHolePort(g, next.value)) then StepOut(Stopped(Threw(TypeError)), c)
      else StepOut(Running(AtEnter(next.value)), c)
  }

  /** One pass of either part of the loop. */
  function Step(g: Graph, c: Ctx, cfg: Config): (r: StepOut)
    ensures cfg.AtEnter? && r.status.Running? ==> r.status.cfg.AtExit? && r.status.cfg.node == cfg.enter.node
    ensures cfg.AtExit? ==> r.ctx.symbols == c.symbols
  {
    match cfg
    case AtEnter(e) => StepEnter(g, c, e)
    case AtExit(n, ret) => StepExit(g, c, n, ret)
  }

  /** `executeCore`, bounded by `fuel` steps. */
  function Run(g: Graph, c: Ctx, cfg: Config, fuel: nat): (r: RunOut)
    decreases fuel
  {
    if fuel == 0 then RunOut(OutOfFuel, c)
    else
      var s := Step(g, c, cfg);
      match s.status
      case Running(next) => Run(g, s.ctx, next, fuel - 1)
      case Stopped(h) => RunOut(h, s.ctx)
  }

  /** Reaching an End node ends the run at any stack depth: without a return input the
      function returns nothing and nothing is read; otherwise the value its input reads is
      returned, and a null read (or an unbound input without a default) is a
      ReferenceError. */
  lemma EndStops(g: Graph, c: Ctx, e: EnterRef)
    requires e.node < |g.nodes| && g.nodes[e.node].End?
    ensures var r := Step(g, c, AtEnter(e));
            r.status.Stopped? && r.ctx.stack == c.stack
    ensures !g.nodes[e.node].hasReturn ==> Step(g, c, AtEnter(e)) == StepOut(Stopped(Done(None)), c)
    ensures g.nodes[e.node].hasReturn ==>
              var r := Step(g, c, AtEnter(e));
              var rv := Input(g, c, InRef(e.node, 0));
              r.ctx == rv.ctx
              && (rv.res.Ok? && rv.res.value.Some? ==> r.status == Stopped(Done(rv.res.value)))
              && (rv.res.Err? || rv.res.value.None? ==> r.status == Stopped(Threw(ReferenceError)))
  {
  }

  /** Entering any node other than an End node runs its `execute` through that enter port
      and continues with what it returns, or stops on what it throws. */
  lemma EnterExecutes(g: Graph, c: Ctx, e: EnterRef)
    requires e.node < |g.nodes| && !g.nodes[e.node].End?
    ensures Step(g, c, AtEnter(e)) == Continue(Execute(g, c, e.node, e), e.node)
  {
  }

  /** Leaving through an exit whose target is an enter port, or a break hole while a flow
      is suspended, continues at that port with the context unchanged. */
  lemma ExitFollowsTarget(g: Graph, c: Ctx, n: NodeId, x: ExitRef)
    requires ExitTarget(g, x).Some?
    requires IsEnterPort(g, ExitTarget(g, x).value) || (HasParent(c) && IsHolePort(g, ExitTarget(g, x).value))
    ensures Step(g, c, AtExit(n, Exit(x))) == StepOut(Running(AtEnter(ExitTarget(g, x).value)), c)
  {
  }

  /** Each step changes the stack by at most one frame, at the top: a sub-flow request
      pushes, the end of a sub-flow pops, a break rewrites the top frame's state. */
  lemma StepStackMove(g: Graph, c: Ctx, cfg: Config)
    ensures StackMove(c.stack, Step(g, c, cfg).ctx.stack)
  {
    match cfg
    case AtEnter(e) =>
      if e.node < |g.nodes| && g.nodes[e.node].While? && e == EnterRef(e.node, 1) {
        var st := TryPeekState(c, e.node);
        if st.Some? && st.value.LoopState? && st.value.node == e.node {
          assert MarkBreak(c).stack[..|c.stack| - 1] == c.stack[..|c.stack| - 1];
        }
      }
    case AtExit(n, ret) =>
      if ret.Subline? {
        assert Push(c, n, ret.state).stack[..|c.stack|] == c.stack;
      }
  }

  /** A run with fuel left takes one step, then goes on from there. */
  lemma RunRunning(g: Graph, c: Ctx, cfg: Config, fuel: nat, c': Ctx, cfg': Config)
    requires Step(g, c, cfg) == StepOut(Running(cfg'), c')
    ensures Run(g, c, cfg, fuel + 1) == Run(g, c', cfg', fuel)
  {
  }

  /** A run whose next step stops ends where that step stopped. */
  lemma RunStopped(g: Graph, c: Ctx, cfg: Config, fuel: nat, c': Ctx, h: Halt)
    requires Step(g, c, cfg) == StepOut(Stopped(h), c')
    ensures Run(g, c, cfg, fuel + 1) == RunOut(h, c')
  {
  }

  /** The state after `k` steps (or where the run stopped, if earlier). */
  function Steps(g: Graph, c: Ctx, cfg: Config, k: nat): StepOut
    decreases k
  {
    if k == 0 then StepOut(Running(cfg), c)
    else
      var s := Step(g, c, cfg);
      if s.status.Stopped? then s else Steps(g, s.ctx, s.status.cfg, k - 1)
  }

  /** A run with `fuel` steps ends where `fuel` single steps lead: where a step stopped, or
      out of fuel at the configuration reached after all of them. */
  lemma {:induction false} RunSteps(g: Graph, c: Ctx, cfg: Config, fuel: nat)
    ensures var s := Steps(g, c, cfg, fuel);
            Run(g, c, cfg, fuel) == RunOut(if s.status.Running? then OutOfFuel else s.status.halt, s.ctx)
    decreases fuel
  {
    if fuel > 0 {
      var s := Step(g, c, cfg);
      if s.status.Running? {
        RunSteps(g, s.ctx, s.status.cfg, fuel - 1);
      }
    }
  }

  /** Running `k + fuel` steps is running `k` steps, then `fuel` more from where those
      left off. */
  lemma {:induction false} RunSplit(g: Graph, c: Ctx, cfg: Config, k: nat, fuel: nat)
    requires Steps(g, c, cfg, k).status.Running?
    ensures Run(g, c, cfg, k + fuel)
            == Run(g, Steps(g, c, cfg, k).ctx, Steps(g, c, cfg, k).status.cfg, fuel)
    decreases k
  {
    if k > 0 {
      var s := Step(g, c, cfg);
      // a step that stops ends the run, so the first step kept it going
      assert s.status.Running?;
      RunSplit(g, s.ctx, s.status.cfg, k - 1, fuel);
      RunRunning(g, c, cfg, k - 1 + fuel, s.ctx, s.status.cfg);
    }
  }

  // ---------------------------------------------------------------------------
  // Stack discipline

  /** A saved frame as the loop produces it: a While node's own LoopState, still alive. */
  predicate FrameOk(g: Graph, f: Frame) {
    && f.node < |g.nodes| && g.nodes[f.node].While?
    && f.state.LoopState? && f.state.node == f.node && f.state.alive
  }

  predicate FramesOk(g: Graph, c: Ctx) {
    forall k :: 0 <= k < |c.stack| ==> FrameOk(g, c.stack[k])
  }

  /** The invariant of the loop: every saved frame is well-formed, and so is the state a
      pending sub-flow request would save. */
  predicate Inv(g: Graph, c: Ctx, cfg: Config) {
    && FramesOk(g, c)
    && (cfg.AtExit? && cfg.ret.Subline? ==> FrameOk(g, Frame(cfg.node, cfg.ret.state)))
  }

  lemma StepEnterInv(g: Graph, c: Ctx, e: EnterRef)
    requires FramesOk(g, c)
    ensures var s := StepEnter(g, c, e);
            s.status.Running? ==> Inv(g, s.ctx, s.status.cfg)
  {
    var n := e.node;
    if n < |g.nodes| && g.nodes[n].While? && e == EnterRef(n, 1) {
      var st := TryPeekState(c, n);
      if st.Some? && st.value.LoopState? && st.value.node == n {
        var c' := MarkBreak(c);
        forall k | 0 <= k < |c'.stack| ensures FrameOk(g, c'.stack[k]) {
          if k < |c.stack| - 1 {
            assert c'.stack[k] == c'.stack[..|c.stack| - 1][k];
          }
        }
      }
    }
  }

  lemma StepExitInv(g: Graph, c: Ctx, n: NodeId, ret: NodeReturn)
    requires Inv(g, c, AtExit(n, ret))
    ensures var s := StepExit(g, c, n, ret);
            s.status.Running? ==> Inv(g, s.ctx, s.status.cfg)
  {
    if ret.Subline? {
      var t := ExitTarget(g, ret.port);
      if t.Some? && t.value.node < |g.nodes| {
        var c' := Push(c, n, ret.state);
        forall k | 0 <= k < |c'.stack| ensures FrameOk(g, c'.stack[k]) {
          if k < |c.stack| {
            assert c'.stack[k] == c.stack[k];
          }
        }
      }
    } else {
      var next := if ret.Exit? then ExitTarget(g, ret.port) else None;
      if HasParent(c) && next.None? {
        var p := Pop(c);
        assert FrameOk(g, c.stack[|c.stack| - 1]);
        forall k | 0 <= k < |p.ctx.stack| ensures FrameOk(g, p.ctx.stack[k]) {
          assert p.ctx.stack[k] == c.stack[k];
        }
      }
    }
  }

  /** Each step keeps the invariant. */
  lemma StepInv(g: Graph, c: Ctx, cfg: Config)
    requires Inv(g, c, cfg)
    ensures var s := Step(g, c, cfg);
            s.status.Running? ==> Inv(g, s.ctx, s.status.cfg)
  {
    match cfg
    case AtEnter(e) => StepEnterInv(g, c, e);
    case AtExit(n, ret) => StepExitInv(g, c, n, ret);
  }

  /** Whatever way a run ends, every frame left on the stack is a While node's own LoopState
      and still alive: `alive` is never cleared. */
  lemma {:induction false} RunInv(g: Graph, c: Ctx, cfg: Config, fuel: nat)
    requires Inv(g, c, cfg)
    ensures FramesOk(g, Run(g, c, cfg, fuel).ctx)
    decreases fuel
  {
    if fuel > 0 {
      var s := Step(g, c, cfg);
      StepInv(g, c, cfg);
      if s.status.Running? {
        RunInv(g, s.ctx, s.status.cfg, fuel - 1);
      } else {
        match cfg
        case AtEnter(e) =>
        case AtExit(n, ret) =>
          StepExitStopped(g, c, n, ret);
      }
    }
  }

  /** A step that stops leaves the stack as it was, or with the top frame popped. */
  lemma StepExitStopped(g: Graph, c: Ctx, n: NodeId, ret: NodeReturn)
    requires Inv(g, c, AtExit(n, ret))
    requires StepExit(g, c, n, ret).status.Stopped?
    ensures FramesOk(g, StepExit(g, c, n, ret).ctx)
  {
    var next := if ret.Exit? then ExitTarget(g, ret.port) else None;
    if !ret.Subline? && HasParent(c) && next.None? {
      var p := Pop(c);
      forall k | 0 <= k < |p.ctx.stack| ensures FrameOk(g, p.ctx.stack[k]) {
        assert p.ctx.stack[k] == c.stack[k];
      }
    }
  }

  /** When a sub-flow ends without a target, the frame popped is alive, so the loop always
      resumes the parent node: the branch that carries an interruption further up is
      never taken. */
  lemma SubflowEndResumesParent(g: Graph, c: Ctx, n: NodeId, ret: NodeReturn)
    requires Inv(g, c, AtExit(n, ret)) && HasParent(c)
    requires ret.Interrupt? || (ret.Exit? && ExitTarget(g, ret.port).None?)
    ensures var top := c.stack[|c.stack| - 1];
            StepExit(g, c, n, ret)
            == Continue(Resume(g, c.(stack := c.stack[..|c.stack| - 1]), top.node, top.state), top.node)
  {
    assert FrameOk(g, c.stack[|c.stack| - 1]);
  }

  // ---------------------------------------------------------------------------
  // Single steps

  /** A sub-flow request saves exactly one frame and enters the subline's target; when the
      subline is not wired, the node is resumed at once with the same state. */
  lemma SublineStep(g: Graph, c: Ctx, n: NodeId, sp: ExitRef, st: FlowState)
    ensures var s := Step(g, c, AtExit(n, Subline(sp, st)));
            match ExitTarget(g, sp)
            case Some(t) =>
              t.node < |g.nodes| ==> s.status == Running(AtEnter(t)) && s.ctx.stack == c.stack + [Frame(n, st)]
            case None =>
              s == Continue(Resume(g, c, n, st), n) && s.ctx.stack == c.stack
  {
  }

  /** At the top level (empty stack), a node that leaves without an enter port to go to
      (no target, an interruption, or a break hole as target) ends the run with a
      SyntaxError. */
  lemma TopLevelInterruptIsSyntaxError(g: Graph, c: Ctx, n: NodeId, ret: NodeReturn)
    requires |c.stack| == 0 && !ret.Subline?
    requires ret.Exit? ==> ExitTarget(g, ret.port).None? || !IsEnterPort(g, ExitTarget(g, ret.port).value)
    ensures Step(g, c, AtExit(n, ret)) == StepOut(Stopped(Threw(SyntaxError)), c)
  {
  }

  /** Breaking out of a loop from its body: entering the hole of a While node whose
      LoopState is the top frame pops that frame and leaves the loop through its second
      exit within two steps, whatever its condition now reads. */
  lemma BreakLeavesLoop(g: Graph, c: Ctx, w: NodeId)
    requires w < |g.nodes| && g.nodes[w].While?
    requires |c.stack| > 0 && c.stack[|c.stack| - 1].node == w
    requires c.stack[|c.stack| - 1].state.LoopState? && c.stack[|c.stack| - 1].state.node == w
    requires c.stack[|c.stack| - 1].state.alive
    requires Target(g, InRef(w, 0)).Some? || InitialOf(g, InRef(w, 0)).Some?
    ensures var s := Steps(g, c, AtEnter(EnterRef(w, 1)), 2);
            s.status == Running(AtExit(w, Exit(ExitRef(w, 1))))
            && s.ctx.stack == c.stack[..|c.stack| - 1]
            && s.ctx.symbols == c.symbols
  {
    var s1 := Step(g, c, AtEnter(EnterRef(w, 1)));
    assert s1 == StepOut(Running(AtExit(w, Interrupt)), MarkBreak(c));
    var m := MarkBreak(c);
    assert m.stack[..|c.stack| - 1] == c.stack[..|c.stack| - 1];
    assert Steps(g, c, AtEnter(EnterRef(w, 1)), 1) == s1;
    ResumeAfterBreakExits(g, Pop(m).ctx, w, m.stack[|m.stack| - 1].state);
  }

  // ---------------------------------------------------------------------------
  // The entry point

  /** `FlowFunction`: the function's entry node and the initial values of its symbols. */
  datatype FlowFunction = FlowFunction(symbol: string, entryNode: NodeId, localInits: map<string, Value>)

  /** How `execute` completes: a return (with or without a value), an error thrown before
      the loop starts, an error from inside the loop wrapped as a FlowError with the
      context's state, or (in the model only) running out of fuel. */
  datatype Completion =
    | Returned(value: Option<Value>)
    | Thrown(error: ErrorKind)
    | Wrapped(flowError: FlowError)
    | Diverged

  /** Outputting the first `k` arguments on the entry node's outputs, in order. */
  function BindArgs(g: Graph, c: Ctx, entry: NodeId, args: seq<Value>, k: nat): (r: Ctx)
    requires k <= |args|
    ensures r.stack == c.stack
    ensures forall o :: o in r.ports <==> o in c.ports || (o.node == entry && o.index < k)
    decreases k
  {
    if k == 0 then c
    else Output(g, BindArgs(g, c, entry, args, k - 1), OutRef(entry, k - 1), args[k - 1])
  }

  /** After binding, the `i`-th output of the entry node holds the `i`-th argument. */
  lemma {:induction false} BindArgsPorts(g: Graph, c: Ctx, entry: NodeId, args: seq<Value>, k: nat)
    requires k <= |args|
    ensures forall i :: 0 <= i < k ==>
              OutRef(entry, i) in BindArgs(g, c, entry, args, k).ports
              && BindArgs(g, c, entry, args, k).ports[OutRef(entry, i)] == args[i]
    decreases k
  {
    if k > 0 {
      BindArgsPorts(g, c, entry, args, k - 1);
    }
  }

  /** `execute(flowFunction, args)`. The entry node must be an Entry node and the argument
      count must match, or a TypeError is thrown as is; the arguments are output in order;
      the entry's exit must lead to an enter port, or a TypeError is thrown as is. Then the
      loop runs from that port; an error inside it is wrapped with the context's state. */
  function Invoke(g: Graph, f: FlowFunction, args: seq<Value>, fuel: nat): (r: Completion)
    ensures r.Thrown? ==> r.error == TypeError
  {
    var entry := f.entryNode;
    if entry >= |g.nodes| || !g.nodes[entry].Entry? then Thrown(TypeError)
    else if |args| != g.nodes[entry].argCount then Thrown(TypeError)
    else
      var c := BindArgs(g, Fresh(f.localInits), entry, args, |args|);
      var first := ExitTarget(g, ExitRef(entry, 0));
      if !(first.Some? && IsEnterPort(g, first.value)) then Thrown(TypeError)
      else
        var run := Run(g, c, AtEnter(first.value), fuel);
        match run.halt
        case Done(v) => Returned(v)
        case Threw(e) => Wrapped(Rethrow(run.ctx, e))
        case OutOfFuel => Diverged
  }

  /** A call with the wrong number of arguments fails with a TypeError that is not wrapped:
      the loop never starts. */
  lemma WrongArgCountNotWrapped(g: Graph, f: FlowFunction, args: seq<Value>, fuel: nat)
    requires f.entryNode < |g.nodes| && g.nodes[f.entryNode].Entry?
    requires |args| != g.nodes[f.entryNode].argCount
    ensures Invoke(g, f, args, fuel) == Thrown(TypeError)
  {
  }

  /** The stack recorded in a wrapped error holds only live LoopStates of While nodes. */
  lemma WrappedStackFramesOk(g: Graph, f: FlowFunction, args: seq<Value>, fuel: nat)
    requires Invoke(g, f, args, fuel).Wrapped?
    ensures forall k :: 0 <= k < |Invoke(g, f, args, fuel).flowError.flowStack| ==>
              FrameOk(g, Invoke(g, f, args, fuel).flowError.flowStack[k])
  {
    var entry := f.entryNode;
    var c := BindArgs(g, Fresh(f.localInits), entry, args, |args|);
    var first := ExitTarget(g, ExitRef(entry, 0));
    RunInv(g, c, AtEnter(first.value), fuel);
  }
}
