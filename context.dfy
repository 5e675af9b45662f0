/** `ExecutionContext`: the per-invocation state, updated in place. Each operation is
    proved to act on the state as the matching function of module State describes. */
module Context {
  import opened Values
  import opened Wiring
  import State

  class ExecutionContext {
    /** The graph being run; wiring is finished before any invocation starts. */
    const graph: Graph
    var stack: seq<State.Frame>
    var portState: map<OutRef, Value>
    var symbolState: map<string, Value>

    /** The context's current state as a value. */
    function Snapshot(): State.Ctx
      reads this
    {
      State.Ctx(stack, portState, symbolState)
    }

    constructor (g: Graph, localInits: map<string, Value>)
      ensures graph == g && Snapshot() == State.Fresh(localInits)
    {
      graph := g;
      stack := [];
      portState := map[];
      symbolState := localInits;
    }

    /** `hasParent`. */
    function HasParent(): (r: bool)
      reads this
      ensures r == State.HasParent(Snapshot())
    {
      |stack| > 0
    }

    /** `input(port)`. */
    method Input(i: InRef) returns (r: Result<Option<Value>>)
      modifies this
      ensures State.Out(r, Snapshot()) == State.Input(graph, old(Snapshot()), i)
    {
      if i !in graph.inTarget {
        if i in graph.initial {
          return Ok(Some(graph.initial[i]));
        }
        return Err(ReferenceError);
      }
      var o := graph.inTarget[i];
      var required := State.OnOutput(graph, symbolState, o);
      if required.Some? {
        portState := portState[o := required.value];
        return Ok(required);
      }
      if o in portState {
        return Ok(Some(portState[o]));
      }
      return Ok(if i in graph.initial then Some(graph.initial[i]) else None);
    }

    /** `output(port, data)`: cache the value, then notify each input of the fan-out in order. */
    method Output(o: OutRef, v: Value)
      modifies this
      ensures Snapshot() == State.Output(graph, old(Snapshot()), o, v)
    {
      portState := portState[o := v];
      var targets := if o in graph.fanout then graph.fanout[o] else [];
      ghost var symbols0 := symbolState;
      for k := 0 to |targets|
        invariant stack == old(stack) && portState == old(portState)[o := v]
        invariant symbolState == State.Deliver(graph, symbols0, targets[..k], v)
      {
        State.DeliverPrefix(graph, symbols0, targets, k, v);
        NotifyInput(targets[k], v);
      }
      assert targets[..|targets|] == targets;
    }

    /** `InputPort.onDataUpdate`: the input's owner reacts through its `onInput` hook. */
    method NotifyInput(i: InRef, v: Value)
      modifies this
      ensures stack == old(stack) && portState == old(portState)
      ensures symbolState == State.OnInput(graph, old(symbolState), i, v)
    {
      if i.node < |graph.nodes| && graph.nodes[i.node].Var? && i.index == 0 {
        Write(graph.nodes[i.node].symbol, v);
      }
    }

    /** `read(symbol)`. */
    function Read(s: string): (r: Option<Value>)
      reads this
      ensures r == State.Read(Snapshot(), s)
    {
      if s in symbolState then Some(symbolState[s]) else None
    }

    /** `write(symbol, value)`. */
    method Write(s: string, v: Value)
      modifies this
      ensures Snapshot() == State.Write(old(Snapshot()), s, v)
    {
      symbolState := symbolState[s := v];
    }

    /** `push(node, state)`. */
    method Push(node: NodeId, state: State.FlowState)
      modifies this
      ensures Snapshot() == State.Push(old(Snapshot()), node, state)
    {
      stack := stack + [State.Frame(node, state)];
    }

    /** `tryPeekState(node)`. */
    function TryPeekState(node: NodeId): (r: Option<State.FlowState>)
      reads this
      ensures r == State.TryPeekState(Snapshot(), node)
    {
      if |stack| > 0 && stack[|stack| - 1].node == node then Some(stack[|stack| - 1].state) else None
    }

    /** `pop()`. */
    method Pop() returns (r: Result<State.Frame>)
      modifies this
      ensures State.Out(r, Snapshot()) == State.Pop(old(Snapshot()))
    {
      if |stack| == 0 {
        return Err(ReferenceError);
      }
      r := Ok(stack[|stack| - 1]);
      stack := stack[..|stack| - 1];
    }

    /** `state.callBreak = true` on the LoopState held by the top frame. */
    method MarkBreak()
      requires |stack| > 0 && stack[|stack| - 1].state.LoopState?
      modifies this
      ensures Snapshot() == State.MarkBreak(old(Snapshot()))
    {
      var top := stack[|stack| - 1];
      stack := stack[|stack| - 1 := top.(state := top.state.(callBreak := true))];
    }

    /** `rethrow(error)`: the error wrapped with the current stack, cache and symbols. */
    function Rethrow(e: ErrorKind): (r: State.FlowError)
      reads this
      ensures r == State.Rethrow(Snapshot(), e)
    {
      State.FlowError(stack, portState, symbolState, e)
    }
  }
}
