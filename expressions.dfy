/** Evaluation of an Expression node's expression tree against the current context. The
    only effect of evaluation is on the output-port cache, through `input`. */
module Expressions {
  import opened Values
  import opened ExprTree
  import opened Wiring
  import opened State

  /** `Expression.evaluate(context, node)`. An input expression reads the named input port
      of `node` and fails with a ReferenceError when it yields null. A binary expression
      fails with a ReferenceError when an operand is missing; otherwise it evaluates the
      left operand, then the right one, and applies its operator. */
  function Evaluate(g: Graph, c: Ctx, node: NodeId, e: Expr): (r: Out<Value>)
    ensures r.ctx.stack == c.stack && r.ctx.symbols == c.symbols
    decreases e
  {
    match e
    case ConstantExp(v) => Out(Ok(v), c)
    case InputExp(symbol) =>
      var port := GetInputPort(g, node, symbol);
      if port.Err? then Out(Err(port.error), c)
      else
        var read := Input(g, c, port.value);
        if read.res.Err? then Out(Err(read.res.error), read.ctx)
        else if read.res.value.None? then Out(Err(ReferenceError), read.ctx)
        else Out(Ok(read.res.value.value), read.ctx)
    case Binary(op, left, right) =>
      if left.None? || right.None? then Out(Err(ReferenceError), c)
      else
        var l := Evaluate(g, c, node, left.value);
        if l.res.Err? then Out(Err(l.res.error), l.ctx)
        else
          var r := Evaluate(g, l.ctx, node, right.value);
          if r.res.Err? then Out(Err(r.res.error), r.ctx)
          else Out(ApplyBinary(op, l.res.value, r.res.value), r.ctx)
  }

  /** Two contexts agree for reading when they have the same symbols and the same cache
      entry for every output that has no pull hook (outputs with a hook are re-read from
      the symbols, so their cache entries do not matter). */
  ghost predicate Agree(g: Graph, c: Ctx, d: Ctx) {
    && c.symbols == d.symbols
    && forall o :: OnOutput(g, c.symbols, o).None? ==>
         (o in c.ports <==> o in d.ports) && (o in c.ports ==> c.ports[o] == d.ports[o])
  }

  lemma InputAgree(g: Graph, c: Ctx, d: Ctx, i: InRef)
    requires Agree(g, c, d)
    ensures Input(g, c, i).res == Input(g, d, i).res
    ensures Agree(g, c, Input(g, c, i).ctx)
  {
  }

  lemma AgreeTransitive(g: Graph, a: Ctx, b: Ctx, c: Ctx)
    requires Agree(g, a, b) && Agree(g, b, c)
    ensures Agree(g, a, c) && Agree(g, c, a)
  {
  }

  /** Evaluation is a function of what the context agrees on: two agreeing contexts give
      the same result, and evaluation leaves the context agreeing with where it started. */
  lemma {:induction false} EvaluateAgree(g: Graph, c: Ctx, d: Ctx, node: NodeId, e: Expr)
    requires Agree(g, c, d)
    ensures Evaluate(g, c, node, e).res == Evaluate(g, d, node, e).res
    ensures Agree(g, c, Evaluate(g, c, node, e).ctx)
    decreases e
  {
    match e
    case ConstantExp(_) =>
    case InputExp(symbol) =>
      if GetInputPort(g, node, symbol).Ok? {
        InputAgree(g, c, d, GetInputPort(g, node, symbol).value);
      }
    case Binary(op, left, right) =>
      if left.Some? && right.Some? {
        var lc := Evaluate(g, c, node, left.value);
        var ld := Evaluate(g, d, node, left.value);
        EvaluateAgree(g, c, d, node, left.value);
        EvaluateAgree(g, d, c, node, left.value);
        if lc.res.Ok? {
          // lc agrees with c, c with d, d with ld
          AgreeTransitive(g, lc.ctx, c, d);
          AgreeTransitive(g, lc.ctx, d, ld.ctx);
          EvaluateAgree(g, lc.ctx, ld.ctx, node, right.value);
          AgreeTransitive(g, c, lc.ctx, Evaluate(g, lc.ctx, node, right.value).ctx);
        }
      }
  }

  /** Evaluating the same expression twice in a row, with nothing in between, gives the same
      result both times (repeated `input` reads are idempotent). */
  lemma EvaluateRepeatable(g: Graph, c: Ctx, node: NodeId, e: Expr)
    ensures Evaluate(g, Evaluate(g, c, node, e).ctx, node, e).res == Evaluate(g, c, node, e).res
  {
    EvaluateAgree(g, c, c, node, e);
    var c' := Evaluate(g, c, node, e).ctx;
    AgreeTransitive(g, c', c, c);
    EvaluateAgree(g, c', c, node, e);
  }

  /** What the leaves of the tree and a binary expression with a missing operand give:
      a constant is its value; a missing operand is a ReferenceError before either operand
      is evaluated; an input expression is a TypeError outside an Expression node, a plain
      Error for an unknown symbol, and otherwise the value its input port reads, where a
      null read is a ReferenceError. */
  lemma EvaluateCases(g: Graph, c: Ctx, node: NodeId, e: Expr)
    ensures e.ConstantExp? ==> Evaluate(g, c, node, e) == Out(Ok(e.value), c)
    ensures e.Binary? && (e.left.None? || e.right.None?) ==> Evaluate(g, c, node, e) == Out(Err(ReferenceError), c)
    ensures e.InputExp? && !IsExpressionNode(g, node) ==> Evaluate(g, c, node, e) == Out(Err(TypeError), c)
    ensures e.InputExp? && IsExpressionNode(g, node) && e.inputSymbol !in g.nodes[node].inputSymbols ==>
              Evaluate(g, c, node, e) == Out(Err(PlainError), c)
    ensures e.InputExp? && GetInputPort(g, node, e.inputSymbol).Ok? ==>
              var read := Input(g, c, GetInputPort(g, node, e.inputSymbol).value);
              Evaluate(g, c, node, e).ctx == read.ctx
              && (read.res.Ok? && read.res.value.Some? ==> Evaluate(g, c, node, e).res == Ok(read.res.value.value))
              && (read.res.Err? || read.res.value.None? ==> Evaluate(g, c, node, e).res == Err(ReferenceError))
  {
  }

  /** `DataCompexp`: `equal` is true exactly when the two operands' values are identical,
      and `notEqual` gives its negation, with the same effect on the context. */
  lemma NotEqualOfEqual(g: Graph, c: Ctx, node: NodeId, l: Expr, r: Expr)
    requires Evaluate(g, c, node, l).res.Ok?
    requires Evaluate(g, Evaluate(g, c, node, l).ctx, node, r).res.Ok?
    ensures var lv := Evaluate(g, c, node, l).res.value;
            var rv := Evaluate(g, Evaluate(g, c, node, l).ctx, node, r).res.value;
            Evaluate(g, c, node, Binary(DataCompop(Equal), Some(l), Some(r))).res == Ok(Bool(lv == rv))
            && Evaluate(g, c, node, Binary(DataCompop(NotEqual), Some(l), Some(r))).res == Ok(Bool(lv != rv))
    ensures Evaluate(g, c, node, Binary(DataCompop(NotEqual), Some(l), Some(r))).ctx
            == Evaluate(g, c, node, Binary(DataCompop(Equal), Some(l), Some(r))).ctx
  {
  }

  /** Both operands are always evaluated, left first: once the left operand succeeds, the
      right one is evaluated on the context the left one left behind, whatever the
      operator (no operator short-circuits), and a failure there is the expression's. */
  lemma OperandsInOrder(g: Graph, c: Ctx, node: NodeId, op: BinaryOp, l: Expr, r: Expr)
    requires Evaluate(g, c, node, l).res.Ok?
    ensures var lc := Evaluate(g, c, node, l).ctx;
            Evaluate(g, c, node, Binary(op, Some(l), Some(r))).ctx == Evaluate(g, lc, node, r).ctx
            && (Evaluate(g, lc, node, r).res.Err? ==>
                  Evaluate(g, c, node, Binary(op, Some(l), Some(r))).res == Evaluate(g, lc, node, r).res)
            && (Evaluate(g, lc, node, r).res.Ok? ==>
                  Evaluate(g, c, node, Binary(op, Some(l), Some(r))).res
                  == ApplyBinary(op, Evaluate(g, c, node, l).res.value, Evaluate(g, lc, node, r).res.value))
  {
  }

  /** `StringBinexp`: once both operands evaluate, concatenation succeeds, and its text is
      `String` of the left value followed by `String` of the right value. */
  lemma ConcatJoinsTexts(g: Graph, c: Ctx, node: NodeId, l: Expr, r: Expr)
    requires Evaluate(g, c, node, l).res.Ok?
    requires Evaluate(g, Evaluate(g, c, node, l).ctx, node, r).res.Ok?
    ensures var lv := Evaluate(g, c, node, l).res.value;
            var rv := Evaluate(g, Evaluate(g, c, node, l).ctx, node, r).res.value;
            var res := Evaluate(g, c, node, Binary(StringConcat, Some(l), Some(r))).res;
            res.Ok? && res.value.Str?
            && res.value.s[..|ToText(lv)|] == ToText(lv) && res.value.s[|ToText(lv)|..] == ToText(rv)
  {
  }

  /** `NumberCompexp`: once both operands evaluate to numbers, `lessThan` compares them,
      `greaterEqual` is its negation, `greaterThan` compares them the other way round and
      `lessEqual` is its negation. Operands that are not both numbers fall outside the model. */
  lemma CompareOperands(g: Graph, c: Ctx, node: NodeId, l: Expr, r: Expr)
    requires Evaluate(g, c, node, l).res.Ok?
    requires Evaluate(g, Evaluate(g, c, node, l).ctx, node, r).res.Ok?
    ensures var lv := Evaluate(g, c, node, l).res.value;
            var rv := Evaluate(g, Evaluate(g, c, node, l).ctx, node, r).res.value;
            lv.Num? && rv.Num? ==>
              Evaluate(g, c, node, Binary(NumberCompop(LessThan), Some(l), Some(r))).res == Ok(Bool(lv.n < rv.n))
              && Evaluate(g, c, node, Binary(NumberCompop(GreaterEqual), Some(l), Some(r))).res == Ok(Bool(!(lv.n < rv.n)))
              && Evaluate(g, c, node, Binary(NumberCompop(GreaterThan), Some(l), Some(r))).res == Ok(Bool(rv.n < lv.n))
              && Evaluate(g, c, node, Binary(NumberCompop(LessEqual), Some(l), Some(r))).res == Ok(Bool(!(rv.n < lv.n)))
    ensures var lv := Evaluate(g, c, node, l).res.value;
            var rv := Evaluate(g, Evaluate(g, c, node, l).ctx, node, r).res.value;
            !(lv.Num? && rv.Num?) ==>
              Evaluate(g, c, node, Binary(NumberCompop(LessThan), Some(l), Some(r))).res == Err(Unmodelled)
  {
    OperandsInOrder(g, c, node, NumberCompop(LessThan), l, r);
    OperandsInOrder(g, c, node, NumberCompop(GreaterEqual), l, r);
    OperandsInOrder(g, c, node, NumberCompop(GreaterThan), l, r);
    OperandsInOrder(g, c, node, NumberCompop(LessEqual), l, r);
  }

  /** A left operand that fails stops the evaluation: the right operand is never read. */
  lemma LeftFailureStops(g: Graph, c: Ctx, node: NodeId, op: BinaryOp, l: Expr, r: Expr)
    requires Evaluate(g, c, node, l).res.Err?
    ensures Evaluate(g, c, node, Binary(op, Some(l), Some(r))) == Evaluate(g, c, node, l)
  {
  }
}
