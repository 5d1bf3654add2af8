/**
 * The built-in functions of src/primitive_functions.rs: the list primitives
 * `cons`, `car` and `cdr` with their `atleast` guard, the two equalities,
 * and the operator closures `create_eden_env` registers.
 *
 * Argument slices the source indexes without a length check (`a[0]`,
 * `a[1]`, `v[0]`) would panic when too short; those lengths are
 * preconditions here, as is the absence of `i64` overflow and of a zero
 * divisor in the arithmetic.
 */
module Primitives {
  import opened Wrappers
  import opened Int64
  import opened LispErrors
  import opened LispVal

  /** The items a list value holds before its end: the elements of a list, the heads of a dotted list, none otherwise. */
  function Front(v: Value): seq<Value>
  {
    match v
    case List(xs) => xs
    case DottedList(xs, _) => xs
    case _ => []
  }

  /** What a list value ends in: nothing for a proper list, the tail of a dotted list, any other value itself. */
  function Terminator(v: Value): Option<Value>
  {
    match v
    case List(_) => None
    case DottedList(_, t) => Some(t)
    case _ => Some(v)
  }

  /** `cons`: puts `p[0]` in front of `p[1]`. */
  function Cons(p: seq<Value>): (r: Result<Value, LispErr>)
    ensures r.Err? <==> |p| != 2
    ensures r.Err? ==> r.error == Runtime("Expected two arguments")
    ensures r.Ok? ==> Front(r.value) == [p[0]] + Front(p[1])
    ensures r.Ok? ==> Terminator(r.value) == Terminator(p[1])
    ensures r.Ok? ==> r.value.List? || r.value.DottedList?
  {
    if |p| != 2 then Err(Runtime("Expected two arguments"))
    else
      var a := p[0];
      match p[1]
      case List(xs) => if |xs| == 0 then Ok(List([a])) else Ok(List([a] + xs))
      case DottedList(xs, r) => Ok(DottedList([a] + xs, r))
      case b => Ok(DottedList([a], b))
  }

  /** `car` indexes the first item without checking that there is one. */
  predicate CarDefined(a: seq<Value>)
  {
    |a| == 1 && (a[0].List? || a[0].DottedList?) ==> |Front(a[0])| > 0
  }

  /** `car`: the first item of a list or dotted list. */
  function Car(a: seq<Value>): (r: Result<Value, LispErr>)
    requires CarDefined(a)
    ensures |a| != 1 ==> r == Err(Runtime("Expected one argument"))
    ensures |a| == 1 && !(a[0].List? || a[0].DottedList?) ==> r == Err(Runtime("Expected list"))
    ensures r.Ok? <==> |a| == 1 && (a[0].List? || a[0].DottedList?)
    ensures r.Ok? ==> r.value == Front(a[0])[0]
  {
    if |a| != 1 then Err(Runtime("Expected one argument"))
    else
      match a[0]
      case List(v) => Ok(v[0])
      case DottedList(v, _) => Ok(v[0])
      case _ => Err(Runtime("Expected list"))
  }

  /** `atleast`: `v` holds at least `i` items. */
  function Atleast(v: seq<Value>, i: nat): (r: Result<(), LispErr>)
    ensures r.Ok? <==> |v| >= i
    ensures r.Err? ==> r.error == Runtime("Expected at least " + Decimal(i))
  {
    if |v| < i then Err(Runtime("Expected at least " + Decimal(i))) else Ok(())
  }

  /** Helper: the digits of one, for the message of `cdr` on an empty list. */
  lemma AtLeastOneMessage()
    ensures "Expected at least " + Decimal(1) == "Expected at least 1"
  {
    assert DigitChar(1) == '1';
    assert Decimal(1) == "1";
  }

  /**
   * `cdr` reads `a[0]` before any other check, and slices a dotted list's
   * heads from 1 when there is more than one.
   */
  predicate CdrDefined(a: seq<Value>)
  {
    |a| >= 1 && (|a| == 1 && a[0].DottedList? ==> |a[0].heads| > 0)
  }

  /** `cdr`: a list without its first item; a one-headed dotted list gives its bare tail. */
  function Cdr(a: seq<Value>): (r: Result<Value, LispErr>)
    requires CdrDefined(a)
    ensures |a| > 1 ==> r == Err(Runtime("Expected one argument"))
    ensures |a| == 1 && a[0].List? && |a[0].elems| == 0 ==> r == Err(Runtime("Expected at least 1"))
    ensures |a| == 1 && !(a[0].List? || a[0].DottedList?) ==> r == Err(Runtime("Expected list"))
    ensures r.Ok? <==> |a| == 1 && (a[0].DottedList? || (a[0].List? && |a[0].elems| > 0))
    ensures r.Ok? && (a[0].List? || |a[0].heads| > 1) ==>
              Front(r.value) == Front(a[0])[1..] && Terminator(r.value) == Terminator(a[0])
    ensures r.Ok? && a[0].DottedList? && |a[0].heads| == 1 ==> r.value == a[0].tail
  {
    if |a| > 1 then Err(Runtime("Expected one argument"))
    else
      match a[0]
      case List(v) =>
        (match Atleast(v, 1)
         case Err(e) => AtLeastOneMessage(); Err(e)
         case Ok(_) => Ok(List(v[1..])))
      case DottedList(v, r) =>
        if |v| == 1 then Ok(r) else Ok(DottedList(v[1..], r))
      case _ => Err(Runtime("Expected list"))
  }

  /** `eqv?`: structural equality of the first two arguments. */
  function Eqv(a: seq<Value>): (r: Result<Value, LispErr>)
    requires |a| >= 2
    ensures r.Ok? && r.value.Boolean?
    ensures r.value.b <==> a[0] == a[1]
    ensures r.value.b ==> Render(a[0]) == Render(a[1])
  {
    Ok(Boolean(a[0] == a[1]))
  }

  /** `equal?`: the first two arguments print alike. */
  function Equal(a: seq<Value>): (r: Result<Value, LispErr>)
    requires |a| >= 2
    ensures r.Ok? && r.value.Boolean?
    ensures r.value.b <==> Render(a[0]) == Render(a[1])
    ensures a[0] == a[1] ==> r.value.b
  {
    Ok(Boolean(Render(a[0]) == Render(a[1])))
  }

  /** The operations of the closures `create_eden_env` registers. */
  datatype BinOp =
    | Add | Sub | Mul | Div | Rem
    | NumEq | NumGt | NumLt | NumGe | NumLe
    | And | Or | Xor
    | StrEq | StrLt | StrGt | StrLe | StrGe

  /** The primitives of the initial environment. */
  datatype Primitive = Op(op: BinOp) | CarP | CdrP | ConsP | EqvP | EqualP | ApplyP | LoadP

  /** The names `create_eden_env` defines, each with the primitive it binds. */
  const Eden: map<string, Primitive> := map[
    "+" := Op(Add), "-" := Op(Sub), "*" := Op(Mul), "/" := Op(Div),
    "mod" := Op(Rem), "quotent" := Op(Div), "remainder" := Op(Add),
    "=" := Op(NumEq), ">" := Op(NumGt), "<" := Op(NumLt), "=>" := Op(NumGe), "<=" := Op(NumLe),
    "&&" := Op(And), "||" := Op(Or), "/=" := Op(Xor),
    "string=?" := Op(StrEq), "string<?" := Op(StrLt), "string>?" := Op(StrGt),
    "string<=?" := Op(StrLe), "string>=?" := Op(StrGe),
    "car" := CarP, "cdr" := CdrP, "cons" := ConsP, "eqv?" := EqvP, "equal?" := EqualP,
    "apply" := ApplyP, "load" := LoadP]

  predicate IsArithmetic(op: BinOp) { op in {Add, Sub, Mul, Div, Rem} }

  predicate IsComparison(op: BinOp) { op in {NumEq, NumGt, NumLt, NumGe, NumLe} }

  predicate IsLogical(op: BinOp) { op in {And, Or, Xor} }

  predicate IsTextual(op: BinOp) { op in {StrEq, StrLt, StrGt, StrLe, StrGe} }

  /** Lexicographic order on strings, the order of Rust's `String` comparisons. */
  predicate StrLess(x: string, y: string)
  {
    if |x| == 0 then |y| > 0
    else |y| > 0 && (x[0] < y[0] || (x[0] == y[0] && StrLess(x[1..], y[1..])))
  }

  /** The exact value of an arithmetic operation; Rust's `/` and `%` truncate. */
  function Exact(op: BinOp, x: int, y: int): int
    requires IsArithmetic(op)
    requires (op == Div || op == Rem) ==> y != 0
  {
    match op
    case Add => x + y
    case Sub => x - y
    case Mul => x * y
    case Div => TruncDiv(x, y)
    case Rem => TruncRem(x, y)
  }

  /**
   * The operands an operation accepts without a panic: numbers, booleans or
   * strings as the operation needs, a non-zero divisor, and a result inside
   * the `i64` range (for `%` as well: `i64::MIN % -1` overflows in Rust).
   */
  predicate Accepts(op: BinOp, x: Value, y: Value)
  {
    if IsArithmetic(op) then
      && x.Number? && y.Number?
      && ((op == Div || op == Rem) ==> y.n != 0)
      && InRange(Exact(op, x.n, y.n))
      && (op == Rem ==> !(x.n == MIN && y.n == -1))
    else if IsComparison(op) then x.Number? && y.Number?
    else if IsLogical(op) then x.Boolean? && y.Boolean?
    else x.String? && y.String?
  }

  /** An operator closure applied to `a[0]` and `a[1]`; further arguments are ignored. */
  function ApplyOp(op: BinOp, a: seq<Value>): (r: Value)
    requires |a| >= 2 && Accepts(op, a[0], a[1])
    ensures IsArithmetic(op) <==> r.Number?
    ensures !IsArithmetic(op) <==> r.Boolean?
    ensures IsArithmetic(op) ==> r == Number(Exact(op, a[0].n, a[1].n))
  {
    var x := a[0];
    var y := a[1];
    match op
    case Add => Number(x.n + y.n)
    case Sub => Number(x.n - y.n)
    case Mul => Number(x.n * y.n)
    case Div => Number(TruncDiv(x.n, y.n))
    case Rem => Number(TruncRem(x.n, y.n))
    case NumEq => Boolean(x.n == y.n)
    case NumGt => Boolean(x.n > y.n)
    case NumLt => Boolean(x.n < y.n)
    case NumGe => Boolean(x.n >= y.n)
    case NumLe => Boolean(x.n <= y.n)
    case And => Boolean(x.b && y.b)
    case Or => Boolean(x.b || y.b)
    case Xor => Boolean(x.b != y.b)
    case StrEq => Boolean(x.s == y.s)
    case StrLt => Boolean(StrLess(x.s, y.s))
    case StrGt => Boolean(StrLess(y.s, x.s))
    case StrLe => Boolean(x.s == y.s || StrLess(x.s, y.s))
    case StrGe => Boolean(x.s == y.s || StrLess(y.s, x.s))
  }
}
