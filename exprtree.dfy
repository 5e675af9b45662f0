/** The expression tree attached to an Expression node, and its operators on values. */
module ExprTree {
  import opened Values

  /** `DataCompop`: identity comparison of any two values. */
  datatype DataOp = Equal | NotEqual

  /** `NumberBinop`. */
  datatype NumOp = Add | Subtract | Multiply | Divide | IntDivide | Modulus | Power

  /** `NumberCompop`. */
  datatype CompOp = LessThan | LessEqual | GreaterThan | GreaterEqual

  /** The operator of a binary expression; the constructor names the expression class
      (`DataCompexp`, `NumberBinexp`, `NumberCompexp`, `StringBinexp`) it belongs to. */
  datatype BinaryOp =
    | DataCompop(dop: DataOp)
    | NumberBinop(nop: NumOp)
    | NumberCompop(cop: CompOp)
    | StringConcat

  /** An expression; a binary expression's operands may be missing (`left`/`right` never set). */
  datatype Expr =
    | InputExp(inputSymbol: string)
    | ConstantExp(value: Value)
    | Binary(op: BinaryOp, left: Option<Expr>, right: Option<Expr>)

  /** Integer rendering of a numeric operator; results that JavaScript would give as a
      fraction, NaN or an infinity are `Unmodelled`. */
  function ApplyNumber(op: NumOp, l: int, r: int): (res: Result<int>)
    ensures res.Err? ==> res.error == Unmodelled
    ensures op.Add? ==> res == Ok(l + r)
    ensures op.Subtract? ==> res == Ok(l - r)
    ensures op.Multiply? ==> res == Ok(l * r)
    ensures op.Divide? ==> (res.Ok? <==> r != 0 && l % r == 0) && (res.Ok? ==> res.value * r == l)
    ensures op.IntDivide? || op.Modulus? ==> (res.Ok? <==> r != 0)
    ensures op.IntDivide? && r != 0 ==> res == Ok(TruncDiv(l, r))
    ensures op.Modulus? && r != 0 ==> res == Ok(TruncMod(l, r))
    ensures op.Power? ==> (res.Ok? <==> r >= 0)
    ensures op.Power? && r >= 0 ==> res == Ok(Pow(l, r))
  {
    match op
    case Add => Ok(l + r)
    case Subtract => Ok(l - r)
    case Multiply => Ok(l * r)
    case Divide => if r != 0 && l % r == 0 then Ok(l / r) else Err(Unmodelled)
    case IntDivide => if r != 0 then Ok(TruncDiv(l, r)) else Err(Unmodelled)
    case Modulus => if r != 0 then Ok(TruncMod(l, r)) else Err(Unmodelled)
    case Power => if r >= 0 then Ok(Pow(l, r)) else Err(Unmodelled)
  }

  /** Each comparison is `<` on the operands, in one order or the other, or its negation. */
  function ApplyCompare(op: CompOp, l: int, r: int): (b: bool)
    ensures op.LessThan? || op.GreaterEqual? ==> (b <==> (op.LessThan? <==> l < r))
    ensures op.GreaterThan? || op.LessEqual? ==> (b <==> (op.GreaterThan? <==> r < l))
  {
    match op
    case LessThan => l < r
    case LessEqual => l <= r
    case GreaterThan => l > r
    case GreaterEqual => l >= r
  }

  /** Applies a binary operator to two already evaluated operands. Numeric operators on
      operands that are not numbers fall outside the model (JavaScript would coerce them). */
  function ApplyBinary(op: BinaryOp, l: Value, r: Value): (res: Result<Value>)
    ensures res.Err? ==> res.error == Unmodelled && (op.NumberBinop? || op.NumberCompop?)
    ensures op.DataCompop? || op.StringConcat? ==> res.Ok?
    ensures op.NumberCompop? ==> (res.Ok? <==> l.Num? && r.Num?)
    ensures op.NumberBinop? ==> (res.Ok? <==> l.Num? && r.Num? && ApplyNumber(op.nop, l.n, r.n).Ok?)
    ensures res.Ok? && (op.DataCompop? || op.NumberCompop?) ==> res.value.Bool?
    ensures res.Ok? && op.NumberBinop? ==> res.value == Num(ApplyNumber(op.nop, l.n, r.n).value)
    ensures res.Ok? && op.StringConcat? ==> res.value.Str?
  {
    match op
    case DataCompop(d) => Ok(Bool(if d == Equal then l == r else l != r))
    case NumberBinop(n) =>
      if l.Num? && r.Num? then
        match ApplyNumber(n, l.n, r.n)
        case Ok(v) => Ok(Num(v))
        case Err(e) => Err(e)
      else Err(Unmodelled)
    case NumberCompop(c) =>
      if l.Num? && r.Num? then Ok(Bool(ApplyCompare(c, l.n, r.n))) else Err(Unmodelled)
    case StringConcat => Ok(Str(ToText(l) + ToText(r)))
  }

  /** Integer division and modulus agree with JavaScript's truncating rule: the quotient
      rounds toward zero and the remainder takes the dividend's sign. */
  lemma IntDivideModulusAgree(l: int, r: int)
    requires r != 0
    ensures ApplyNumber(IntDivide, l, r).Ok? && ApplyNumber(Modulus, l, r).Ok?
    ensures ApplyNumber(IntDivide, l, r).value * r + ApplyNumber(Modulus, l, r).value == l
    ensures Abs(ApplyNumber(Modulus, l, r).value) < Abs(r)
    ensures Abs(ApplyNumber(IntDivide, l, r).value) == Abs(l) / Abs(r)
    ensures l >= 0 ==> ApplyNumber(Modulus, l, r).value >= 0
    ensures l < 0 ==> ApplyNumber(Modulus, l, r).value <= 0
  {
    TruncDivMod(l, r);
  }
}
