/** Per-invocation state as a value, and the context operations on it: pull/push dataflow
    (`input`, `output`), the symbol table, and the stack of suspended flows. */
module State {
  import opened Values
  import opened Wiring

  /** The state saved when a node opens a sub-flow. `alive` is false once an enclosing
      flow has pre-empted it; a LoopState also records whether a break was requested. */
  datatype FlowState =
    | FlowState(node: NodeId, alive: bool)
    | LoopState(node: NodeId, alive: bool, callBreak: bool)

  /** `FlowStackFrame`: the suspended node and its saved state. */
  datatype Frame = Frame(node: NodeId, state: FlowState)

  /** The mutable parts of `ExecutionContext`: the stack, the output-port cache and the
      symbol table. */
  datatype Ctx = Ctx(stack: seq<Frame>, ports: map<OutRef, Value>, symbols: map<string, Value>)

  /** Either a result or a thrown error, with the context as it is at that point (effects
      made before a throw stay applied). */
  datatype Out<T> = Out(res: Result<T>, ctx: Ctx)

  /** `FlowError`: a failure inside the core loop, wrapped with a snapshot of the stack, the
      output-port cache and the symbol table at the point of failure. */
  datatype FlowError = FlowError(
    flowStack: seq<Frame>, portState: map<OutRef, Value>, symbolState: map<string, Value>, error: ErrorKind)

  /** `rethrow`: wrap an error with the context's snapshot. */
  function Rethrow(c: Ctx, e: ErrorKind): (r: FlowError)
    ensures r.flowStack == c.stack && r.portState == c.ports && r.symbolState == c.symbols && r.error == e
  {
    FlowError(c.stack, c.ports, c.symbols, e)
  }

  /** A fresh context: empty stack, empty cache, symbols copied from `localInits`. */
  function Fresh(localInits: map<string, Value>): (c: Ctx)
    ensures c.stack == [] && c.ports == map[] && c.symbols == localInits
  {
    Ctx([], map[], localInits)
  }

  // ---------------------------------------------------------------------------
  // Node hooks: only a Var node overrides `onOutput` and `onInput`

  /** `output.node.onOutput(context, output)`: a Var node answers a request on its read
      port with the symbol's current value; every other node answers null. */
  function OnOutput(g: Graph, symbols: map<string, Value>, o: OutRef): (r: Option<Value>)
    ensures r.Some? ==> o.node < |g.nodes| && g.nodes[o.node].Var? && o.index == 0
                        && g.nodes[o.node].symbol in symbols && r.value == symbols[g.nodes[o.node].symbol]
    ensures o.node < |g.nodes| && g.nodes[o.node].Var? && o.index == 0 ==>
              r == (if g.nodes[o.node].symbol in symbols then Some(symbols[g.nodes[o.node].symbol]) else None)
  {
    if o.node < |g.nodes| && g.nodes[o.node].Var? && o.index == 0 && g.nodes[o.node].symbol in symbols
    then Some(symbols[g.nodes[o.node].symbol])
    else None
  }

  /** Whether pushing a value into input `i` writes a symbol (a Var node's write port). */
  predicate WritesSymbol(g: Graph, i: InRef) {
    i.node < |g.nodes| && g.nodes[i.node].Var? && i.index == 0
  }

  /** `input.node.onInput(context, data, input)`: a Var node stores a value arriving on its
      write port; every other node ignores it. */
  function OnInput(g: Graph, symbols: map<string, Value>, i: InRef, v: Value): (r: map<string, Value>)
    ensures !WritesSymbol(g, i) ==> r == symbols
    ensures WritesSymbol(g, i) ==> g.nodes[i.node].symbol in r && r[g.nodes[i.node].symbol] == v
    ensures forall s :: s in symbols ==> s in r
    ensures forall s :: s in r && (!WritesSymbol(g, i) || s != g.nodes[i.node].symbol) ==>
              s in symbols && r[s] == symbols[s]
  {
    if WritesSymbol(g, i) then symbols[g.nodes[i.node].symbol := v] else symbols
  }

  /** `OutputPort.onDataUpdate`: the hook of each listed input, once each, in list order. */
  function Deliver(g: Graph, symbols: map<string, Value>, targets: seq<InRef>, v: Value): (r: map<string, Value>)
    ensures forall s :: s in symbols ==> s in r
    ensures forall s :: s in r ==> r[s] == v || (s in symbols && r[s] == symbols[s])
    ensures forall s :: s in r && s !in symbols ==> r[s] == v
    decreases |targets|
  {
    if |targets| == 0 then symbols
    else Deliver(g, OnInput(g, symbols, targets[0], v), targets[1..], v)
  }

  /** Whether some input in the list is the write port of a Var node for `s`. */
  predicate SomeWrites(g: Graph, targets: seq<InRef>, s: string) {
    exists k :: 0 <= k < |targets| && WritesSymbol(g, targets[k]) && g.nodes[targets[k].node].symbol == s
  }

  /** Delivering a value leaves a symbol holding that value exactly when one of the
      targets writes it, and unchanged otherwise. */
  lemma {:induction false} DeliverWrites(g: Graph, symbols: map<string, Value>, targets: seq<InRef>, v: Value, s: string)
    ensures SomeWrites(g, targets, s) ==> s in Deliver(g, symbols, targets, v) && Deliver(g, symbols, targets, v)[s] == v
    ensures !SomeWrites(g, targets, s) ==>
              (s in Deliver(g, symbols, targets, v) <==> s in symbols)
              && (s in symbols ==> Deliver(g, symbols, targets, v)[s] == symbols[s])
    decreases |targets|
  {
    if |targets| > 0 {
      DeliverWrites(g, OnInput(g, symbols, targets[0], v), targets[1..], v, s);
      SomeWritesCons(g, targets, s);
    }
  }

  /** Some input of a non-empty list writes `s` exactly when its first one does or some
      input of the rest does. */
  lemma SomeWritesCons(g: Graph, targets: seq<InRef>, s: string)
    requires |targets| > 0
    ensures SomeWrites(g, targets, s)
            <==> (WritesSymbol(g, targets[0]) && g.nodes[targets[0].node].symbol == s)
                 || SomeWrites(g, targets[1..], s)
  {
    if SomeWrites(g, targets, s) {
      var k :| 0 <= k < |targets| && WritesSymbol(g, targets[k]) && g.nodes[targets[k].node].symbol == s;
      if k > 0 {
        assert targets[1..][k - 1] == targets[k];
      }
    }
    if SomeWrites(g, targets[1..], s) {
      var k :| 0 <= k < |targets[1..]| && WritesSymbol(g, targets[1..][k]) && g.nodes[targets[1..][k].node].symbol == s;
      assert targets[k + 1] == targets[1..][k];
    }
  }

  lemma DeliverPrefix(g: Graph, symbols: map<string, Value>, targets: seq<InRef>, k: nat, v: Value)
    requires k < |targets|
    ensures Deliver(g, symbols, targets[..k + 1], v) == OnInput(g, Deliver(g, symbols, targets[..k], v), targets[k], v)
    decreases k
  {
    if k > 0 {
      assert targets[..k + 1][1..] == targets[1..][..k];
      assert targets[..k][1..] == targets[1..][..k - 1];
      DeliverPrefix(g, OnInput(g, symbols, targets[0], v), targets[1..], k - 1, v);
    }
  }

  // ---------------------------------------------------------------------------
  // Dataflow

  /** `ExecutionContext.input`. An unbound input yields its default value, or fails with a
      ReferenceError when it has none. A bound input first asks the owner of the output
      (pull); a value it yields is cached and returned. Otherwise the cached value, or the
      default, is returned, which may be null. */
  function Input(g: Graph, c: Ctx, i: InRef): (r: Out<Option<Value>>)
    ensures r.ctx.stack == c.stack && r.ctx.symbols == c.symbols
    ensures r.res.Err? <==> Target(g, i).None? && InitialOf(g, i).None?
    ensures r.res.Err? ==> r.res.error == ReferenceError && r.ctx == c
    ensures Target(g, i).None? ==> r.ctx == c && (r.res.Ok? ==> r.res.value == InitialOf(g, i))
    ensures Target(g, i).Some? && OnOutput(g, c.symbols, Target(g, i).value).Some? ==>
              r.res == Ok(OnOutput(g, c.symbols, Target(g, i).value))
              && r.ctx.ports == c.ports[Target(g, i).value := r.res.value.value]
    ensures Target(g, i).Some? && OnOutput(g, c.symbols, Target(g, i).value).None? ==>
              r.ctx == c
              && r.res == Ok(if Target(g, i).value in c.ports then Some(c.ports[Target(g, i).value]) else InitialOf(g, i))
  {
    match Target(g, i)
    case None =>
      if i in g.initial then Out(Ok(Some(g.initial[i])), c) else Out(Err(ReferenceError), c)
    case Some(o) =>
      var pulled := OnOutput(g, c.symbols, o);
      if pulled.Some? then Out(Ok(pulled), c.(ports := c.ports[o := pulled.value]))
      else Out(Ok(if o in c.ports then Some(c.ports[o]) else InitialOf(g, i)), c)
  }

  /** `ExecutionContext.output`: cache the value for the output, then push it to each
      input in the output's fan-out list. */
  function Output(g: Graph, c: Ctx, o: OutRef, v: Value): (r: Ctx)
    ensures r.stack == c.stack
    ensures r.ports == c.ports[o := v]
  {
    c.(ports := c.ports[o := v], symbols := Deliver(g, c.symbols, Targets(g, o), v))
  }

  /** Reading an input twice in a row gives the same result and changes nothing the
      second time. */
  lemma InputIdempotent(g: Graph, c: Ctx, i: InRef)
    ensures Input(g, Input(g, c, i).ctx, i).res == Input(g, c, i).res
    ensures Input(g, Input(g, c, i).ctx, i).ctx == Input(g, c, i).ctx
  {
  }

  /** After `output`, a bound input with no pull hook reads back the value just output. */
  lemma OutputThenInput(g: Graph, c: Ctx, o: OutRef, v: Value, i: InRef)
    requires Target(g, i) == Some(o) && OnOutput(g, Output(g, c, o, v).symbols, o).None?
    ensures Input(g, Output(g, c, o, v), i) == Out(Ok(Some(v)), Output(g, c, o, v))
  {
  }

  /** `output` changes only the output's own cache entry, and each symbol as the fan-out
      dictates: the value if some target writes that symbol, otherwise the old entry. */
  lemma OutputEffect(g: Graph, c: Ctx, o: OutRef, v: Value, s: string)
    ensures forall o' :: o' != o ==> (o' in Output(g, c, o, v).ports <==> o' in c.ports)
    ensures SomeWrites(g, Targets(g, o), s) ==> s in Output(g, c, o, v).symbols && Output(g, c, o, v).symbols[s] == v
    ensures !SomeWrites(g, Targets(g, o), s) ==>
              (s in Output(g, c, o, v).symbols <==> s in c.symbols)
              && (s in c.symbols ==> Output(g, c, o, v).symbols[s] == c.symbols[s])
  {
    DeliverWrites(g, c.symbols, Targets(g, o), v, s);
  }

  // ---------------------------------------------------------------------------
  // Symbol table

  function Read(c: Ctx, s: string): (r: Option<Value>)
    ensures r.None? <==> s !in c.symbols
    ensures r.Some? ==> r.value == c.symbols[s]
  {
    if s in c.symbols then Some(c.symbols[s]) else None
  }

  function Write(c: Ctx, s: string, v: Value): (r: Ctx)
    ensures r.stack == c.stack && r.ports == c.ports
    ensures s in r.symbols && r.symbols[s] == v
    ensures forall t :: t != s ==> (t in r.symbols <==> t in c.symbols)
    ensures forall t :: t != s && t in c.symbols ==> r.symbols[t] == c.symbols[t]
  {
    c.(symbols := c.symbols[s := v])
  }

  /** After `write(s, v)`, `read(s)` is `v` and every other symbol reads as before. */
  lemma ReadAfterWrite(c: Ctx, s: string, v: Value, t: string)
    ensures Read(Write(c, s, v), s) == Some(v)
    ensures t != s ==> Read(Write(c, s, v), t) == Read(c, t)
    ensures Write(c, s, v).stack == c.stack && Write(c, s, v).ports == c.ports
  {
  }

  // ---------------------------------------------------------------------------
  // Stack discipline

  /** `hasParent`: a frame is there to pop. */
  function HasParent(c: Ctx): (r: bool)
    ensures r <==> Pop(c).res.Ok?
  {
    |c.stack| > 0
  }

  function Push(c: Ctx, node: NodeId, state: FlowState): (r: Ctx)
    ensures |r.stack| == |c.stack| + 1
  {
    c.(stack := c.stack + [Frame(node, state)])
  }

  /** `tryPeekState`: the top frame's state, only when the top frame belongs to `node`. */
  function TryPeekState(c: Ctx, node: NodeId): (r: Option<FlowState>)
    ensures r.Some? <==> |c.stack| > 0 && c.stack[|c.stack| - 1].node == node
    ensures r.Some? ==> r.value == c.stack[|c.stack| - 1].state
  {
    if |c.stack| > 0 && c.stack[|c.stack| - 1].node == node then Some(c.stack[|c.stack| - 1].state) else None
  }

  /** `pop`: removes and returns the top frame; an empty stack is a ReferenceError. */
  function Pop(c: Ctx): (r: Out<Frame>)
    ensures r.res.Err? <==> |c.stack| == 0
    ensures r.res.Err? ==> r.res.error == ReferenceError && r.ctx == c
    ensures r.res.Ok? ==> r.ctx.stack == c.stack[..|c.stack| - 1] && r.res.value == c.stack[|c.stack| - 1]
    ensures r.ctx.ports == c.ports && r.ctx.symbols == c.symbols
  {
    if |c.stack| == 0 then Out(Err(ReferenceError), c)
    else Out(Ok(c.stack[|c.stack| - 1]), c.(stack := c.stack[..|c.stack| - 1]))
  }

  /** `state.callBreak = true` on the LoopState object held by the top frame. */
  function MarkBreak(c: Ctx): (r: Ctx)
    requires |c.stack| > 0 && c.stack[|c.stack| - 1].state.LoopState?
    ensures |r.stack| == |c.stack| && r.stack[..|c.stack| - 1] == c.stack[..|c.stack| - 1]
    ensures r.stack[|c.stack| - 1] == c.stack[|c.stack| - 1].(state := LoopState(
              c.stack[|c.stack| - 1].state.node, c.stack[|c.stack| - 1].state.alive, true))
    ensures r.ports == c.ports && r.symbols == c.symbols
  {
    var top := c.stack[|c.stack| - 1];
    c.(stack := c.stack[|c.stack| - 1 := top.(state := top.state.(callBreak := true))])
  }

  /** Pushing then popping gives back the pushed frame and the original context. */
  lemma PushPop(c: Ctx, node: NodeId, state: FlowState)
    ensures Pop(Push(c, node, state)) == Out(Ok(Frame(node, state)), c)
    ensures HasParent(Push(c, node, state))
    ensures TryPeekState(Push(c, node, state), node) == Some(state)
  {
    assert Push(c, node, state).stack[..|c.stack|] == c.stack;
  }

  /** `tryPeekState` answers for the top frame only: a node whose frame is buried under
      another frame gets null. */
  lemma TryPeekOnlyTop(c: Ctx, node: NodeId, other: NodeId, s1: FlowState, s2: FlowState)
    requires node != other
    ensures TryPeekState(Push(Push(c, node, s1), other, s2), node) == None
    ensures TryPeekState(Push(Push(c, node, s1), other, s2), other) == Some(s2)
  {
  }
}
