/** Runtime values, error kinds and the value conversions the interpreter relies on. */
module Values {

  datatype Option<T> = None | Some(value: T)

  /** A value carried by a data port: the boolean, number and text kinds of the blueprint. */
  datatype Value = Bool(b: bool) | Num(n: int) | Str(s: string)

  /** The JavaScript error classes the interpreter throws (messages are not modelled). */
  datatype ErrorKind =
    | ReferenceError
    | SyntaxError
    | TypeError
    | RangeError
    | PlainError   // `new Error(...)`
    | Unmodelled   // a numeric result that is not an integer (NaN, an infinity, a fraction)

  datatype Result<T> = Ok(value: T) | Err(error: ErrorKind)

  /** Completion of an operation that returns nothing: normal, or a thrown error. */
  datatype Outcome = Pass | Fail(error: ErrorKind)

  /** JavaScript truthiness of what `context.input` returned; null is falsy. */
  function Truthy(v: Option<Value>): (r: bool)
    ensures !r <==> v in {None, Some(Bool(false)), Some(Num(0)), Some(Str(""))}
  {
    match v
    case None => false
    case Some(Bool(b)) => b
    case Some(Num(n)) => n != 0
    case Some(Str(s)) => s != ""
  }

  // ---------------------------------------------------------------------------
  // String(v): decimal text of numbers, "true"/"false" for booleans

  function DigitChar(d: nat): char
    requires d < 10
  {
    "0123456789"[d]
  }

  function DigitValue(ch: char): nat {
    if '0' <= ch <= '9' then (ch - '0') as nat else 0
  }

  predicate IsDigits(s: string) {
    forall i :: 0 <= i < |s| ==> '0' <= s[i] <= '9'
  }

  /** Decimal text of a natural number, most significant digit first. */
  function NatToText(n: nat): (s: string)
    ensures |s| > 0 && IsDigits(s)
    decreases n
  {
    if n < 10 then [DigitChar(n)] else NatToText(n / 10) + [DigitChar(n % 10)]
  }

  /** `String(n)` of an integer: a negative number is a minus sign followed by the digits
      of its magnitude, any other number its digits alone. */
  function IntToText(n: int): (s: string)
    ensures |s| > 0
    ensures n < 0 ==> s[0] == '-' && s[1..] == NatToText(-n)
    ensures n >= 0 ==> s == NatToText(n) && '0' <= s[0] <= '9'
  {
    if n < 0 then
      var t := NatToText(-n);
      assert ("-" + t)[1..] == t;
      "-" + t
    else NatToText(n)
  }

  /** `String(v)` as used by string concatenation. */
  function ToText(v: Value): (r: string)
    ensures v.Str? ==> r == v.s
    ensures v.Num? ==> r == IntToText(v.n)
    ensures v.Bool? ==> (r == "true" <==> v.b) && (r == "false" <==> !v.b)
  {
    match v
    case Bool(b) => if b then "true" else "false"
    case Num(n) => IntToText(n)
    case Str(s) => s
  }

  /** Reads a run of decimal digits back as a natural number. */
  function ParseNat(s: string): nat {
    if |s| == 0 then 0 else ParseNat(s[..|s| - 1]) * 10 + DigitValue(s[|s| - 1])
  }

  lemma {:induction false} ParseNatToText(n: nat)
    ensures ParseNat(NatToText(n)) == n
    decreases n
  {
    var s := NatToText(n);
    if n >= 10 {
      ParseNatToText(n / 10);
      assert s[..|s| - 1] == NatToText(n / 10);
    }
  }

  lemma NatToTextInjective(a: nat, b: nat)
    requires NatToText(a) == NatToText(b)
    ensures a == b
  {
    ParseNatToText(a);
    ParseNatToText(b);
  }

  /** Distinct numbers have distinct text: `String` loses nothing on integers. */
  lemma IntToTextInjective(a: int, b: int)
    requires IntToText(a) == IntToText(b)
    ensures a == b
  {
    if a < 0 && b < 0 {
      NatToTextInjective(-a, -b);
    } else if a >= 0 && b >= 0 {
      NatToTextInjective(a, b);
    }
  }

  // ---------------------------------------------------------------------------
  // Integer renderings of the numeric operators

  function Abs(x: int): nat {
    if x < 0 then -x else x
  }

  /** `Math.trunc(l / r)`: division rounding toward zero. */
  function TruncDiv(l: int, r: int): (q: int)
    requires r != 0
    ensures Abs(q) == Abs(l) / Abs(r)
    ensures (l < 0) == (r < 0) ==> q >= 0
    ensures (l < 0) != (r < 0) ==> q <= 0
  {
    var a, b := Abs(l), Abs(r);
    DivNonneg(a, b);
    var q: nat := a / b;
    if (l < 0) == (r < 0) then q else -(q as int)
  }

  /** The quotient of two naturals is a natural. */
  lemma DivNonneg(a: nat, b: nat)
    requires b > 0
    ensures a / b >= 0
  {
  }

  /** `l % r` in JavaScript: the remainder takes the sign of the dividend. */
  function TruncMod(l: int, r: int): (m: int)
    requires r != 0
    ensures Abs(m) == Abs(l) % Abs(r)
    ensures l >= 0 ==> m >= 0
    ensures l < 0 ==> m <= 0
  {
    if l < 0 then -(Abs(l) % Abs(r)) else Abs(l) % Abs(r)
  }

  /** Truncating quotient and remainder recombine to the dividend, and the remainder
      is smaller than the divisor in magnitude. */
  lemma TruncDivMod(l: int, r: int)
    requires r != 0
    ensures TruncDiv(l, r) * r + TruncMod(l, r) == l
    ensures Abs(TruncMod(l, r)) < Abs(r)
  {
    var a: int, b: int := Abs(l), Abs(r);
    var q: int, m: int := a / b, a % b;
    assert a == q * b + m && 0 <= m < b;
    NegMul(q, b);
  }

  /** Sign rules of multiplication. */
  lemma NegMul(x: int, y: int)
    ensures (-x) * y == -(x * y) && x * (-y) == -(x * y) && (-x) * (-y) == x * y
  {
  }

  function Pow(b: int, e: nat): int
    decreases e
  {
    if e == 0 then 1 else b * Pow(b, e - 1)
  }
}
