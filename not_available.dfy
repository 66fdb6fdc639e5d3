/** lib/sycsvpro/not_available.rb: the value NA, which absorbs every
    arithmetic operation it takes part in, together with the Ruby arithmetic
    of the other cell values it meets in a spread sheet. */
module NotAvailable {
  import opened Wrappers
  import opened Text

  /** A spread sheet cell: an Integer, a String, NotAvailable or nil. */
  datatype Value = Num(n: int) | Str(s: string) | NA | Nil

  /** The four operators of a spread sheet. */
  datatype Op = Add | Sub | Mul | Div

  /** The string form of NotAvailable. */
  const NAText := "NA"

  /** Ruby's Integer `/`, which rounds toward negative infinity. */
  function FloorDiv(a: int, b: int): int
    requires b != 0
  {
    if b > 0 then a / b else (-a) / (-b)
  }

  /** The quotient is the floor: the remainder is smaller than the divisor
      and has its sign. */
  lemma FloorDivIsFloor(a: int, b: int)
    requires b != 0
    ensures var q := FloorDiv(a, b);
      (b > 0 ==> q * b <= a < q * b + b) && (b < 0 ==> q * b + b < a <= q * b)
  {
  }

  /** `s * n` for a String. */
  function Repeat(s: string, n: nat): (r: string)
    ensures |r| == |s| * n
  {
    if n == 0 then "" else Repeat(s, n - 1) + s
  }

  /** `a.send(op, b)`. NA answers every operator with itself
      (`method_missing`); an Integer meeting NA hands the operation to NA
      (`coerce`), so the result is NA again; otherwise Ruby's own rules. */
  function Apply(op: Op, a: Value, b: Value): Result<Value>
  {
    match a
    case NA => Ok(NA)
    case Num(x) =>
      (match b
       case NA => Ok(NA)
       case Num(y) =>
         (match op
          case Add => Ok(Num(x + y))
          case Sub => Ok(Num(x - y))
          case Mul => Ok(Num(x * y))
          case Div => if y == 0 then Err("divided by 0") else Ok(Num(FloorDiv(x, y))))
       case _ => Err("cannot be coerced into Integer"))
    case Str(s) =>
      if op == Add && b.Str? then Ok(Str(s + b.s))
      else if op == Mul && b.Num? then
        (if b.n >= 0 then Ok(Str(Repeat(s, b.n))) else Err("negative argument"))
      else if op == Add || op == Mul then Err("no implicit conversion")
      else Err("undefined method for String")
    case Nil => Err("undefined method for nil")
  }

  /** `to_s`. */
  function ToS(v: Value): string
  {
    match v
    case Num(n) => IntToString(n)
    case Str(s) => s
    case NA => NAText
    case Nil => ""
  }

  /** NA first: the result is NA whatever the operator and operand. */
  lemma NAFirstAbsorbs(op: Op, x: Value)
    ensures Apply(op, NA, x) == Ok(NA)
  {
  }

  /** NA after an Integer: NA again, also for division, which never raises. */
  lemma NASecondAbsorbs(op: Op, n: int)
    ensures Apply(op, Num(n), NA) == Ok(NA)
  {
  }

  /** The string form of NA is "NA". */
  lemma NAPrints()
    ensures ToS(NA) == "NA"
  {
  }

  // ---------------------------------------------------------------------------
  // Expressions

  /** An arithmetic expression over cell values. */
  datatype Expr = Lit(v: Value) | Bin(op: Op, left: Expr, right: Expr)

  /** Ruby's evaluation: left operand, right operand, then the operator; the
      first exception ends it. */
  function Eval(e: Expr): Result<Value>
  {
    match e
    case Lit(v) => Ok(v)
    case Bin(op, l, r) =>
      var x := Eval(l);
      if x.Err? then x
      else
        var y := Eval(r);
        if y.Err? then y else Apply(op, x.value, y.value)
  }

  predicate ContainsNA(e: Expr)
  {
    match e
    case Lit(v) => v == NA
    case Bin(_, l, r) => ContainsNA(l) || ContainsNA(r)
  }

  /** Integers and NA under `+`, `-` and `*`. */
  predicate Numeric(e: Expr)
  {
    match e
    case Lit(v) => v.Num? || v == NA
    case Bin(op, l, r) => op != Div && Numeric(l) && Numeric(r)
  }

  /** An expression that mentions NA and evaluates at all evaluates to NA. */
  lemma {:induction false} NAExprAbsorbs(e: Expr)
    requires ContainsNA(e) && Eval(e).Ok?
    ensures Eval(e) == Ok(NA)
  {
    match e
    case Lit(_) =>
    case Bin(op, l, r) =>
      if ContainsNA(l) {
        NAExprAbsorbs(l);
      } else {
        NAExprAbsorbs(r);
      }
  }

  /** A numeric expression always evaluates, to an Integer or NA, and to NA
      exactly when it mentions NA. */
  lemma {:induction false} NumericExprEvaluates(e: Expr)
    requires Numeric(e)
    ensures Eval(e).Ok?
    ensures Eval(e).value.Num? || Eval(e).value == NA
    ensures Eval(e).value == NA <==> ContainsNA(e)
  {
    match e
    case Lit(_) =>
    case Bin(op, l, r) =>
      NumericExprEvaluates(l);
      NumericExprEvaluates(r);
  }
}
