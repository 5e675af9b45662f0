# Blueprint interpreter model

A Dafny model of the node-graph interpreter in `interpreter/prototype.ts`. A blueprint
function is a graph of flow nodes: Entry, End, Var, While, If and Expression. The nodes
are joined in two ways:

- **Data wiring.** An input port is bound to an output port, and an output port has a
  fan-out list of input ports.
- **Control wiring.** An exit port points at an enter port or at a While node's break
  hole.

`execute` binds the call's arguments to the Entry node's outputs. It then runs
`executeCore`, a loop with an explicit stack of suspended flows:

- a node's subline port (the While body) opens a sub-flow and saves the node's state;
- an exit with no target ends the current sub-flow, pops the saved frame and resumes
  that node;
- reaching an End node returns from the whole invocation.

An error inside the loop is wrapped, together with the context's stack, output-port cache
and symbol table, as a `FlowError`.

The model has two layers.

- **Pure.** The semantics as functions over values:
  - `Wiring` holds the graph as an arena. Nodes are addressed by handles, ports by
    (node, index) pairs, and the wiring lives in maps.
  - `State` holds the execution context as a value, with `input`, `output`, the symbol
    table and the stack.
  - `Expressions` evaluates the expression tree.
  - `Nodes` gives each node kind's `execute` and `resume`.
  - `Machine` makes the control loop a small-step machine. A configuration is either "about
    to enter this enter port" (the top of `flowStart`) or "about to follow this node's
    return value" (the top of `flowEnd`). `Run` is the loop bounded by a fuel count, and
    `Invoke` is `execute`.
- **Imperative.** The same behaviour as code that changes state in place:
  - `Context.ExecutionContext` is a class holding the stack, the port cache and the
    symbol table.
  - `Builder.Blueprint` is a class holding the graph being wired.
  - `Interpreter` holds the node behaviours, the two nested loops of `executeCore` and
    `execute`, as methods on an `ExecutionContext`.

  Each method's postcondition says that its result and the context's new state are what
  the matching pure function gives. The properties proved about the pure functions
  therefore hold of the methods.

Values are booleans, integers and strings. The error classes the interpreter throws are
kept apart; their messages are not. Node handles that name no node stand for the foreign
objects that the source's `instanceof` checks reject, and they give the same TypeError.

Rebinding an input does not unlist it from the output it was bound to before.
`InputPort.attach` (interpreter/prototype.ts:453-456) sets the new target and appends the
input to the new output's fan-out list; nothing removes it from the old list. The model
follows this: `Wiring.RebindKeepsStaleFanout` shows that after a rebind both outputs list
the input, so the old output still delivers to it.

## Model

| member | source | states |
|---|---|---|
| Values.IntToText | interpreter/prototype.ts:1118 | the text of a negative integer is a minus sign followed by the digits of its magnitude; of any other integer, its digits alone, starting with a digit |
| Values.ToText | interpreter/prototype.ts:1118 | `String(v)`: a string is itself, a number its `IntToText`, a boolean `"true"` exactly when it is true and `"false"` exactly when it is false |
| Values.Truthy | interpreter/prototype.ts:708 | the falsy values are exactly null, `false`, `0` and the empty string; everything else is truthy (as used at 708, 737 and 767) |
| Values.TruncDiv | interpreter/prototype.ts:1043 | `Math.trunc(l / r)`: its magnitude is the magnitudes' quotient, and it is non-negative when the operands have the same sign and non-positive otherwise |
| Values.TruncMod | interpreter/prototype.ts:1046 | `l % r`: its magnitude is the magnitudes' remainder, and it has the sign of the dividend |
| Values.ParseNatToText | interpreter/prototype.ts:1111-1119 | reading the decimal text of a natural number back as digits gives the number (the text loses nothing) |
| Values.NatToTextInjective | interpreter/prototype.ts:1111-1119 | two natural numbers with the same decimal text are equal |
| Values.IntToTextInjective | interpreter/prototype.ts:1111-1119 | two integers with the same `String` text are equal, so concatenation never confuses two numbers |
| Values.TruncDivMod | interpreter/prototype.ts:1042-1047 | truncating quotient times divisor plus remainder is the dividend; the remainder is smaller than the divisor in magnitude and has the dividend's sign |
| ExprTree.ApplyNumber | interpreter/prototype.ts:1029-1053 | add, subtract and multiply give `l + r`, `l - r` and `l * r`; divide succeeds exactly on an exact division and its result times the divisor is the dividend; integer divide and modulus succeed exactly with a non-zero divisor and then give the truncating `TruncDiv` and `TruncMod`; power succeeds exactly with a non-negative exponent and gives `Pow(l, r)`; every failure is `Unmodelled` |
| ExprTree.ApplyCompare | interpreter/prototype.ts:1079-1094 | `lessThan` is `l < r` and `greaterEqual` its negation; `greaterThan` is `r < l` and `lessEqual` its negation |
| ExprTree.ApplyBinary | interpreter/prototype.ts:1000-1118 | data comparison and concatenation never fail; a numeric comparison succeeds exactly on two numbers; arithmetic succeeds exactly on two numbers whose `ApplyNumber` does, and gives that number; comparisons give booleans, concatenation a string; every failure is `Unmodelled` |
| ExprTree.IntDivideModulusAgree | interpreter/prototype.ts:1042-1047 | with a non-zero divisor, integer divide and modulus both succeed and recombine to the dividend with a smaller remainder; the quotient's magnitude is the dividend's over the divisor's (rounded toward zero) and the remainder has the dividend's sign |
| Wiring.Attach | interpreter/prototype.ts:453-456 | the input's target becomes the output; that output's fan-out list gains the input at its end; every other binding and fan-out list is unchanged |
| Wiring.AttachInput | interpreter/prototype.ts:376-388 | succeeds exactly when both the input and the output port exist, and then attaches; otherwise a TypeError |
| Wiring.Connect | interpreter/prototype.ts:398-400 | fails exactly when the exit or the next node does not exist; otherwise the nodes, the input bindings, the default values and the fan-out lists are unchanged, no other exit's target changes, and the exit's target is the enter port when it exists and none when it does not |
| Wiring.AddInput | interpreter/prototype.ts:812-821 | a symbol already present is a plain Error; otherwise the node gets the symbol as its last input, keeps its expression, and every other node, binding, default value, fan-out list and exit target is unchanged |
| Wiring.GetInputPort | interpreter/prototype.ts:828-836 | succeeds exactly on an Expression node that has the symbol, giving one of its inputs whose symbol it is |
| Wiring.AttachAppendsOnce | interpreter/prototype.ts:453-456 | attaching adds exactly one occurrence of the input to the new output's fan-out and changes no other input's count there |
| Wiring.RebindKeepsStaleFanout | interpreter/prototype.ts:453-456 | after attaching an input to one output and then to another, the input's target is the second output, but both fan-out lists contain it |
| Wiring.AddInputThenGet | interpreter/prototype.ts:812-836 | after `addInput`, the symbols stay distinct, the new symbol names the next port, and every other symbol keeps its port |
| Wiring.AttachInputWellFormed | interpreter/prototype.ts:376-388 | a successful `attachInput` keeps the graph well formed (every wired port exists, every bound input is in its output's fan-out) |
| Wiring.ConnectWellFormed | interpreter/prototype.ts:398-400 | a successful `connect` keeps the graph well formed (exits lead only to enter or hole ports) |
| Wiring.AddInputWellFormed | interpreter/prototype.ts:812-821 | a successful `addInput` keeps the graph well formed, including distinct input symbols |
| Builder.Blueprint.NewEntry | interpreter/prototype.ts:566-582 | a negative parameter count is a RangeError and changes nothing; otherwise a new Entry node is appended and its handle returned |
| Builder.Blueprint.NewNode | interpreter/prototype.ts:598-605 | appends the new node (an Expression node starts with no inputs and no expression), returns its handle and keeps the graph well formed |
| Builder.Blueprint.AttachInput | interpreter/prototype.ts:376-388 | fails with TypeError and no change exactly when `Wiring.AttachInput` does; otherwise the graph is the attached one, still well formed |
| Builder.Blueprint.Connect | interpreter/prototype.ts:398-400 | fails with TypeError and no change exactly when `Wiring.Connect` does; otherwise the graph is the connected one, still well formed |
| Builder.Blueprint.AddInput | interpreter/prototype.ts:812-821 | a duplicate symbol fails with a plain Error and no change; otherwise the graph is `Wiring.AddInput`'s, still well formed |
| Builder.Blueprint.SetInitialValue | interpreter/prototype.ts:436 | sets the input's default value and nothing else; the graph stays well formed |
| Builder.Blueprint.SetExpression | interpreter/prototype.ts:788 | sets the node's expression and nothing else; the graph stays well formed |
| State.Fresh | interpreter/prototype.ts:156-161 | a new context has an empty stack, an empty port cache and a copy of the local initial values as its symbols |
| State.Rethrow | interpreter/prototype.ts:290-293 | the error is wrapped with exactly the context's stack, port cache and symbol table |
| State.OnOutput | interpreter/prototype.ts:675-684 | a Var node's read port answers `read(symbol)`: the symbol's value when it is set, null when it is not; every answer that is not null comes from such a port |
| State.OnInput | interpreter/prototype.ts:666-673 | a value pushed into a Var node's write port is stored in its symbol; any other input leaves the symbols as they were; no other symbol changes |
| State.Deliver | interpreter/prototype.ts:488-492 | notifying a fan-out list only adds symbols, and afterwards every symbol holds either the delivered value or its old value; a new symbol holds the delivered value |
| State.DeliverWrites | interpreter/prototype.ts:488-492 | pushing a value through a fan-out list leaves a symbol holding the value exactly when some input in the list is a write port for it, and unchanged otherwise |
| State.Input | interpreter/prototype.ts:182-209 | an unbound input without a default is a ReferenceError and changes nothing; an unbound input returns its default; a bound input returns the pulled value and caches it, or else the cached value, or else the default |
| State.Output | interpreter/prototype.ts:218-227 | the output's cache entry becomes the value, no other cache entry changes, and the stack is untouched |
| State.InputIdempotent | interpreter/prototype.ts:182-209 | reading the same input twice in a row gives the same result and the second read changes nothing |
| State.OutputThenInput | interpreter/prototype.ts:218-227 | after `output`, an input bound to that output (with no pull hook) reads back the value just output |
| State.OutputEffect | interpreter/prototype.ts:218-227 | `output` changes no other cache key, writes the value into every symbol some target writes, and leaves every other symbol as it was |
| State.Read | interpreter/prototype.ts:234-236 | null exactly for a symbol that was never set, otherwise the symbol's value |
| State.Write | interpreter/prototype.ts:243-245 | the symbol holds the value afterwards; every other symbol, the stack and the cache are unchanged |
| State.ReadAfterWrite | interpreter/prototype.ts:234-245 | after `write(s, v)`, `read(s)` is `v`, every other symbol reads as before, and the stack and cache are untouched |
| State.HasParent | interpreter/prototype.ts:166-168 | true exactly when `pop` would succeed |
| State.Push | interpreter/prototype.ts:252-254 | `push` grows the stack by exactly one frame |
| State.TryPeekState | interpreter/prototype.ts:263-270 | gives the top frame's state exactly when the stack is non-empty and the top frame's node is the one asked about |
| State.Pop | interpreter/prototype.ts:277-284 | on an empty stack, a ReferenceError with no change; otherwise returns the top frame and removes exactly it; cache and symbols untouched |
| State.MarkBreak | interpreter/prototype.ts:722 | sets `callBreak` on the top frame's LoopState and changes nothing else |
| State.PushPop | interpreter/prototype.ts:252-284 | popping right after a push returns the pushed frame and the original context; in between, `hasParent` holds and `tryPeekState` sees the pushed state |
| State.TryPeekOnlyTop | interpreter/prototype.ts:263-270 | a node whose frame lies under another node's frame gets null from `tryPeekState` |
| Context.ExecutionContext.constructor | interpreter/prototype.ts:156-161 | the new context is `State.Fresh` of the local initial values |
| Context.ExecutionContext.Input | interpreter/prototype.ts:182-209 | the result and the new state are those of `State.Input` |
| Context.ExecutionContext.Output | interpreter/prototype.ts:218-227 | the new state is that of `State.Output`: the loop notifies each fan-out input once, in list order |
| Context.ExecutionContext.NotifyInput | interpreter/prototype.ts:463-465 | the symbols become those of `State.OnInput` (a Var node's write port stores the value); stack and cache untouched |
| Context.ExecutionContext.Write | interpreter/prototype.ts:243-245 | the new state is that of `State.Write` |
| Context.ExecutionContext.Push | interpreter/prototype.ts:252-254 | the new state is that of `State.Push` |
| Context.ExecutionContext.TryPeekState | interpreter/prototype.ts:263-270 | agrees with `State.TryPeekState` on the current state |
| Context.ExecutionContext.Read | interpreter/prototype.ts:234-236 | agrees with `State.Read` on the current state |
| Context.ExecutionContext.HasParent | interpreter/prototype.ts:166-168 | agrees with `State.HasParent` on the current state |
| Context.ExecutionContext.Pop | interpreter/prototype.ts:277-284 | the result and the new state are those of `State.Pop` |
| Context.ExecutionContext.MarkBreak | interpreter/prototype.ts:716-724 | the new state is that of `State.MarkBreak` |
| Context.ExecutionContext.Rethrow | interpreter/prototype.ts:290-293 | the error is wrapped with exactly the current stack, cache and symbols |
| Expressions.Evaluate | interpreter/prototype.ts:913-927 | evaluating an expression never changes the stack or the symbols (only the port cache, through `input`) |
| Expressions.EvaluateCases | interpreter/prototype.ts:866-946 | a constant is its value with no change; a missing operand is a ReferenceError before either operand is read; an input expression outside an Expression node is a TypeError, with an unknown symbol a plain Error, and otherwise the value its port reads, a null read being a ReferenceError |
| Expressions.EvaluateAgree | interpreter/prototype.ts:913-927 | evaluation depends only on the symbols and on cache entries of outputs without a pull hook, and leaves those as they were |
| Expressions.EvaluateRepeatable | interpreter/prototype.ts:913-927 | evaluating the same expression twice in a row gives the same result |
| Expressions.NotEqualOfEqual | interpreter/prototype.ts:993-1006 | once both operands evaluate, `equal` is true exactly when their values are identical and `notEqual` exactly when they are not, with the same effect on the context |
| Expressions.OperandsInOrder | interpreter/prototype.ts:993-999 | once the left operand succeeds the right one is always evaluated, on the context the left one left behind; its failure is the expression's, and otherwise the result is the operator applied to both values |
| Expressions.LeftFailureStops | interpreter/prototype.ts:995-997 | a failing left operand is the whole expression's failure, and the right operand is never read |
| Expressions.ConcatJoinsTexts | interpreter/prototype.ts:1111-1119 | once both operands evaluate, concatenation succeeds with a string whose prefix is `String(left)` and whose rest is `String(right)` |
| Expressions.CompareOperands | interpreter/prototype.ts:1070-1097 | once both operands evaluate to numbers, `lessThan` compares them, `greaterEqual` is its negation, `greaterThan` compares them the other way round and `lessEqual` is its negation; on other operands the model gives `Unmodelled` |
| Nodes.ExecuteVar | interpreter/prototype.ts:634-664 | never touches the stack; success is always the node's first exit; the only failure is a ReferenceError |
| Nodes.ExecuteWhile | interpreter/prototype.ts:705-731 | through the main enter: the condition read's failure is the node's, otherwise the body opens with a fresh LoopState exactly when the condition is truthy and the loop exits exactly when it is not; any enter other than the main enter and the break hole is a ReferenceError with no change; symbols unchanged and the stack changes only through the break hole |
| Nodes.ResumeWhile | interpreter/prototype.ts:733-744 | the condition read's failure is the node's; otherwise the body runs again with the same state exactly when the condition is truthy and no break was requested, and the loop exits exactly when not; stack and symbols unchanged |
| Nodes.ExecuteIf | interpreter/prototype.ts:765-774 | stack and symbols unchanged; fails exactly when reading the condition fails |
| Nodes.ExecuteExpression | interpreter/prototype.ts:838-856 | no inputs is a RangeError and no expression a ReferenceError, both with no change; otherwise an evaluation failure is the node's, and a value is output on the result port (cached there and pushed to its fan-out) before the node leaves through its exit |
| Nodes.Execute | interpreter/prototype.ts:390-392 | a failing node leaves the stack as it was; a node always leaves through one of its own exits; a body request always carries the node's fresh LoopState |
| Nodes.Resume | interpreter/prototype.ts:394-396 | never touches the stack; only a While node resumes; a body request carries the resumed state |
| Nodes.BreakMarksOwnLoop | interpreter/prototype.ts:714-729 | entering a While node's hole interrupts the flow and sets `callBreak` in place exactly when the top frame is that loop's own LoopState; otherwise a SyntaxError with no change |
| Nodes.ResumeAfterBreakExits | interpreter/prototype.ts:734-744 | a loop whose break was requested leaves through its second exit at its next resume, whatever its condition reads |
| Nodes.IfBranches | interpreter/prototype.ts:765-774 | an If node takes its first exit exactly when the condition is truthy, and its second exactly when it is not |
| Nodes.WhileBranches | interpreter/prototype.ts:705-744 | dispatched through `execute` and `resume`: the main enter opens the body exactly on a truthy condition and exits exactly on a falsy one; resume re-enters the body exactly on a truthy condition with no break requested; any other enter is a ReferenceError |
| Nodes.VarStoresAndOutputs | interpreter/prototype.ts:634-664 | after the fetch and the store, a value to output is output exactly as `output` does (cached on the read port and pushed to its fan-out) and the node leaves through its exit; with nothing to output the context is the one after the fetch, and the node fails exactly when the read port has consumers; a fetched value is stored in the symbol |
| Machine.StepEnter | interpreter/prototype.ts:1154-1183 | a stopping step leaves the stack as it was; an End node is the only way to return; any other node's step continues at one of that node's exits (what it returns is given by `Machine.EnterExecutes`) |
| Machine.EndStops | interpreter/prototype.ts:1158-1176 | reaching an End node stops the run at any stack depth: with no return input it returns nothing and reads nothing; otherwise it returns the value its input reads, and a null read or an unbound input without a default is a ReferenceError |
| Machine.EnterExecutes | interpreter/prototype.ts:1179-1183 | entering a node other than an End node is exactly its `execute` through that enter port: the loop continues with what it returns, or stops on what it throws |
| Machine.StepExit | interpreter/prototype.ts:1186-1248 | following a return value never changes the symbols, and when it goes on to an enter port that port's node exists (the ordinary case, an exit with a target, is `Machine.ExitFollowsTarget`) |
| Machine.ExitFollowsTarget | interpreter/prototype.ts:1239-1247 | an exit whose target is an enter port, or a break hole while a flow is suspended, continues at that port with the context unchanged |
| Machine.Step | interpreter/prototype.ts:1154-1248 | a pass of `flowStart` continues at an exit of the node it entered; a pass of `flowEnd` never changes the symbols; `Machine.EnterExecutes` and `Machine.ExitFollowsTarget` give the two ordinary steps exactly |
| Machine.StepStackMove | interpreter/prototype.ts:1154-1248 | each step leaves the stack as it was, pushes one frame, pops the top frame, or rewrites the top frame's state; frames below the top are never touched |
| Machine.RunSteps | interpreter/prototype.ts:1149-1250 | the loop bounded by `fuel` steps ends where `fuel` single steps lead: where a step stopped, or out of fuel at the configuration reached after all of them |
| Machine.RunSplit | interpreter/prototype.ts:1154-1249 | running `k + n` steps is running `k` steps and then `n` more from where they left off |
| Machine.StepInv | interpreter/prototype.ts:1186-1248 | every step keeps the loop invariant: each saved frame is a live LoopState of its own While node |
| Machine.RunInv | interpreter/prototype.ts:1228-1232 | however the loop ends, every frame left on the stack is a live LoopState of its own While node: `alive` is never cleared |
| Machine.SubflowEndResumesParent | interpreter/prototype.ts:1221-1237 | when a sub-flow ends without a target, the popped frame is always alive, so the parent node is resumed (the branch that unwinds further is unreachable) |
| Machine.SublineStep | interpreter/prototype.ts:1188-1210 | a body request with a wired subline pushes exactly one frame and enters the subline's target; an unwired one resumes the node at once and leaves the stack as it was |
| Machine.TopLevelInterruptIsSyntaxError | interpreter/prototype.ts:1213-1218 | with an empty stack, leaving a node without an enter port to go to is a SyntaxError with no change |
| Machine.BreakLeavesLoop | interpreter/prototype.ts:714-744 | entering the hole of the loop on top of the stack pops its frame and leaves the loop through its second exit within two steps, with the symbols unchanged |
| Machine.BindArgsPorts | interpreter/prototype.ts:1277-1282 | after the argument loop, the `i`-th output of the Entry node holds the `i`-th argument |
| Machine.BindArgs | interpreter/prototype.ts:1277-1282 | the argument loop leaves the stack as it was and adds cache entries for exactly the first `k` outputs of the Entry node |
| Machine.Invoke | interpreter/prototype.ts:1258-1296 | every error thrown without wrapping is a TypeError |
| Machine.WrongArgCountNotWrapped | interpreter/prototype.ts:1273-1275 | a call with the wrong number of arguments is an unwrapped TypeError |
| Machine.WrappedStackFramesOk | interpreter/prototype.ts:1289-1295 | the stack recorded in a wrapped error holds only live LoopStates of While nodes |
| Interpreter.EvaluateExpr | interpreter/prototype.ts:913-1119 | the result and the context's new state are those of `Expressions.Evaluate` |
| Interpreter.ExecuteVar | interpreter/prototype.ts:634-664 | the result and new state are those of `Nodes.ExecuteVar` |
| Interpreter.ExecuteWhile | interpreter/prototype.ts:705-732 | the result and new state are those of `Nodes.ExecuteWhile`; `callBreak` is set in place on the top frame |
| Interpreter.ResumeWhile | interpreter/prototype.ts:734-744 | the result and new state are those of `Nodes.ResumeWhile` |
| Interpreter.ExecuteIf | interpreter/prototype.ts:765-774 | the result and new state are those of `Nodes.ExecuteIf` |
| Interpreter.ExecuteExpression | interpreter/prototype.ts:838-856 | the result and new state are those of `Nodes.ExecuteExpression` |
| Interpreter.ExecuteNode | interpreter/prototype.ts:1183 | the result and new state are those of `Nodes.Execute` |
| Interpreter.ResumeNode | interpreter/prototype.ts:1209 | the result and new state are those of `Nodes.Resume` |
| Interpreter.EnterNode | interpreter/prototype.ts:1155-1183 | one pass of the top of `flowStart`: the run from the enter port, with one more step of fuel, continues as the run from the returned configuration, or ends where this pass stopped |
| Interpreter.FollowExit | interpreter/prototype.ts:1188-1247 | one pass of `flowEnd` is exactly one `Machine.Step` from the node's return value |
| Interpreter.FollowExits | interpreter/prototype.ts:1186-1248 | the `flowEnd` loop stops at an enter port having spent fuel, or with the run's end; either way it is the machine's run from the node's return value |
| Interpreter.ExecuteCore | interpreter/prototype.ts:1149-1250 | the halt and the context's final state are those of `Machine.Run` with the same fuel |
| Interpreter.Execute | interpreter/prototype.ts:1258-1296 | the completion is `Machine.Invoke`'s |

## Left out

- Floating point. Numbers are mathematical integers. `numberDivide` is defined only when
  it divides exactly. `numberIntDivide` and `numberModulus` are defined only with a
  non-zero divisor, and `numberPower` only with a non-negative exponent. Every other
  result (a fraction, NaN, an infinity) is the error kind `Unmodelled`.
- Numeric operators on non-number operands. JavaScript would coerce them, for example a
  string `+`; the model gives `Unmodelled`.
- An operator outside its expression class's set. The `SyntaxError("invalid operator")`
  branches are unreachable, because each class's operators are a closed datatype.
- `UnaryExpression` has no concrete subclass in the source, so nothing evaluates it.
- The `null`/`undefined` distinction, and the `NONE`/`TRUE`/`FALSE` sentinels and
  `Object.freeze` of the value layer. A missing value is `None`.
- Error messages. Only the error class is kept.
- Values.IntToText: writes every digit of an integer, while JavaScript's `String` writes a
  number of magnitude 10^21 or more in exponent form.
- Values.ToText: numbers are rendered by `IntToText`, so the same exponent form is missing.
- Values of kind null, array or entity. A `ConstantExpression` holding null evaluates to
  null in the source, which is then output and stored; the model's values have no null,
  so a constant is always a boolean, number or string.
- Builder.Blueprint.SetExpression: always sets an expression; clearing it back to null
  (`expression = null`) is not modelled.
- Builder.Blueprint.SetInitialValue: always sets a value; resetting a default back to
  null (`initalValue = null`) is not modelled.
- State.Read / State.Write / State.ReadAfterWrite: the symbol table is an exact map from
  strings. The source's table is a plain JavaScript object, so a name inherited from
  `Object.prototype` (`toString`, `constructor`, ...) reads as a non-null function although
  it was never written, `write("__proto__", v)` changes the object's prototype instead of
  storing `v` (so reading it back is not `v`), and Symbol-typed keys are not modelled.
- Object identity. `instanceof` checks that reject foreign node or port objects become
  handles that name no node or port, and give the same TypeError.
- Machine.Run: bounded by a fuel count, so a graph that loops forever ends as `OutOfFuel`
  (`Diverged` from `execute`) instead of running forever.
- Interpreter.ExecuteCore: each step of the fuel bound is one pass of `flowStart` or one
  pass of `flowEnd`. The inner `flowEnd` loop is the method `Interpreter.FollowExits`,
  called from the `flowStart` loop.
- FlowState objects are values on the stack, not shared objects. The one in-place
  mutation, `state.callBreak = true` in the While node's break branch, rewrites the top
  frame. Only that frame holds the object, so no aliasing is lost.
- Machine.Invoke: states only that unwrapped errors are TypeErrors. What the loop returns
  is stated by `Interpreter.ExecuteCore`'s tie to `Machine.Run` and by the lemmas about
  `Machine.Step`.
- The Fibonacci graph in `mvp/mvp1.ts` is not transcribed. Unfolding a run of that length
  is beyond what the verifier can do cheaply.
- The `.d.ts` type declarations, the Blockly UI blocks and `src/index.js` have no runtime
  behaviour in the interpreter and are not part of this model.
