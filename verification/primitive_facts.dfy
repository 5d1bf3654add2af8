/** Laws relating the primitives of src/primitive_functions.rs to each other. */
module PrimitiveFacts {
  import opened Wrappers
  import opened Int64
  import opened LispErrors
  import opened LispVal
  import opened Primitives

  /** Two list values with the same items and the same end are the same value. */
  lemma ViewDeterminesValue(u: Value, w: Value)
    requires u.List? || u.DottedList?
    requires w.List? || w.DottedList?
    requires Front(u) == Front(w) && Terminator(u) == Terminator(w)
    ensures u == w
  {
  }

  /** `car` takes back what `cons` put in front. */
  lemma CarCons(a: Value, b: Value)
    ensures Cons([a, b]).Ok? && CarDefined([Cons([a, b]).value])
    ensures Car([Cons([a, b]).value]) == Ok(a)
  {
  }

  /** `cdr` undoes `cons` onto a list. */
  lemma CdrConsList(a: Value, xs: seq<Value>)
    ensures Cons([a, List(xs)]).Ok? && CdrDefined([Cons([a, List(xs)]).value])
    ensures Cdr([Cons([a, List(xs)]).value]) == Ok(List(xs))
  {
    assert Cons([a, List(xs)]).value.elems[1..] == xs;
  }

  /**
   * `cdr` undoes `cons` onto a dotted list with heads; onto a dotted list
   * without heads it returns the bare tail instead.
   */
  lemma CdrConsDotted(a: Value, xs: seq<Value>, t: Value)
    ensures Cons([a, DottedList(xs, t)]).Ok? && CdrDefined([Cons([a, DottedList(xs, t)]).value])
    ensures |xs| > 0 ==> Cdr([Cons([a, DottedList(xs, t)]).value]) == Ok(DottedList(xs, t))
    ensures |xs| == 0 ==> Cdr([Cons([a, DottedList(xs, t)]).value]) == Ok(t)
  {
    assert ([a] + xs)[1..] == xs;
  }

  /** `cdr` undoes `cons` onto anything that is not a list. */
  lemma CdrConsOther(a: Value, b: Value)
    requires !b.List? && !b.DottedList?
    ensures Cons([a, b]).Ok? && CdrDefined([Cons([a, b]).value])
    ensures Cdr([Cons([a, b]).value]) == Ok(b)
  {
  }

  /**
   * Taking a list value apart with `car` and `cdr` and putting it back with
   * `cons` gives it back, except for a one-headed dotted list whose tail is
   * itself a list: `cdr` returns the bare tail and `cons` then builds a
   * different value.
   */
  lemma ConsCarCdr(v: Value)
    requires (v.List? && |v.elems| > 0) || (v.DottedList? && |v.heads| > 0)
    ensures CarDefined([v]) && CdrDefined([v])
    ensures Car([v]).Ok? && Cdr([v]).Ok?
    ensures var r := Cons([Car([v]).value, Cdr([v]).value]);
            r == Ok(v) <==> !(v.DottedList? && |v.heads| == 1 && (v.tail.List? || v.tail.DottedList?))
  {
    var h := Car([v]).value;
    var c := Cdr([v]).value;
    var r := Cons([h, c]).value;
    if v.DottedList? && |v.heads| == 1 {
      if v.tail.List? || v.tail.DottedList? {
        assert Terminator(r) == Terminator(v.tail) != Terminator(v);
      } else {
        assert Front(r) == [h] == Front(v);
        ViewDeterminesValue(r, v);
      }
    } else {
      assert Front(r) == [Front(v)[0]] + Front(v)[1..] == Front(v);
      ViewDeterminesValue(r, v);
    }
  }

  /** Values `eqv?` finds equal are also `equal?`. */
  lemma EqvImpliesEqual(a: seq<Value>)
    requires |a| >= 2
    ensures Eqv(a).value.b ==> Equal(a).value.b
  {
  }

  /** `equal?` compares printed forms, so it holds where `eqv?` does not. */
  lemma EqualButNotEqv()
    ensures Equal([Atom("5"), Number(5)]) == Ok(Boolean(true))
    ensures Eqv([Atom("5"), Number(5)]) == Ok(Boolean(false))
  {
    assert NatDigits(5) == ['5'];
  }

  /**
   * As registered, `remainder` adds, `quotent` is `/`, and greater-or-equal
   * is bound to the name `=>`, not `>=`.
   */
  lemma OperatorTableAsWritten(x: i64, y: i64)
    requires InRange(x + y)
    ensures Eden["remainder"] == Eden["+"] == Op(Add)
    ensures ApplyOp(Eden["remainder"].op, [Number(x), Number(y)]) == Number(x + y)
    ensures Eden["quotent"] == Eden["/"] == Op(Div)
    ensures ">=" !in Eden && Eden["=>"] == Op(NumGe)
    ensures ApplyOp(Eden["=>"].op, [Number(x), Number(y)]) == Boolean(x >= y)
  {
    EdenAliases();
    EdenGreaterOrEqual();
  }

  /** Helper: the entries of `remainder`, `+`, `quotent` and `/`. */
  lemma EdenAliases()
    ensures Eden["remainder"] == Eden["+"] == Op(Add) && Eden["quotent"] == Eden["/"] == Op(Div)
  {
  }

  /** Helper: the entry of `=>`, and the absence of `>=`. */
  lemma EdenGreaterOrEqual()
    ensures ">=" !in Eden && Eden["=>"] == Op(NumGe)
  {
    assert ">=" !in Eden.Keys;
  }

  /** `/` and `mod` together recover the dividend; the remainder is smaller than the divisor and has the dividend's sign. */
  lemma DivideAndMod(x: i64, y: i64)
    requires Accepts(Div, Number(x), Number(y)) && Accepts(Rem, Number(x), Number(y))
    ensures var q := ApplyOp(Div, [Number(x), Number(y)]).n;
            var m := ApplyOp(Rem, [Number(x), Number(y)]).n;
            var d: int := if y < 0 then 0 - (y as int) else y as int;
            && q * y + m == x
            && (x >= 0 ==> 0 <= m < d)
            && (x < 0 ==> -d < m <= 0)
  {
    DivRemLaws(x, y);
  }

  /**
   * `<`, `=` and `>` are the integer comparisons, so exactly one of them
   * holds; `=>` is `>` or `=`, and `<=` is `<` or `=`.
   */
  lemma NumericComparisons(x: i64, y: i64)
    ensures var a := [Number(x), Number(y)];
            var lt := ApplyOp(NumLt, a).b; var eq := ApplyOp(NumEq, a).b; var gt := ApplyOp(NumGt, a).b;
            && lt == (x < y) && eq == (x == y) && gt == (x > y)
            && (if lt then 1 else 0) + (if eq then 1 else 0) + (if gt then 1 else 0) == 1
            && ApplyOp(NumGe, a).b == (gt || eq)
            && ApplyOp(NumLe, a).b == (lt || eq)
  {
  }

  /** The string order is a strict total order: exactly one of `string<?`, `string=?` and `string>?` holds. */
  lemma {:induction false} StrTrichotomy(x: string, y: string)
    ensures (if StrLess(x, y) then 1 else 0) + (if x == y then 1 else 0) + (if StrLess(y, x) then 1 else 0) == 1
    decreases |x|
  {
    if |x| > 0 && |y| > 0 && x[0] == y[0] {
      StrTrichotomy(x[1..], y[1..]);
      assert x == y <==> x[1..] == y[1..] by {
        if x[1..] == y[1..] {
          assert x == [x[0]] + x[1..] && y == [y[0]] + y[1..];
        }
      }
    }
  }

  /** The string order is transitive. */
  lemma {:induction false} StrLessTrans(x: string, y: string, z: string)
    requires StrLess(x, y) && StrLess(y, z)
    ensures StrLess(x, z)
    decreases |x|
  {
    if |x| > 0 && x[0] == y[0] && y[0] == z[0] {
      StrLessTrans(x[1..], y[1..], z[1..]);
    }
  }

  /** `&&`, `||` and `/=` are conjunction, disjunction and exclusive or. */
  lemma LogicalOperators(p: bool, q: bool)
    ensures var a := [Boolean(p), Boolean(q)];
            && ApplyOp(And, a).b == (p && q)
            && ApplyOp(Or, a).b == (p || q)
            && ApplyOp(Xor, a).b == (p != q)
  {
  }

  /** `string=?` is equality, `string<?` the string order and `string>?` its converse. */
  lemma StringOperators(u: string, w: string)
    ensures var a := [String(u), String(w)];
            && ApplyOp(StrEq, a).b == (u == w)
            && ApplyOp(StrLt, a).b == StrLess(u, w)
            && ApplyOp(StrGt, a).b == StrLess(w, u)
  {
  }

  /** `string<=?` and `string>=?` are the string order and its converse, each with equality. */
  lemma StringComparisons(x: string, y: string)
    ensures var a := [String(x), String(y)];
            && ApplyOp(StrLe, a).b == !ApplyOp(StrGt, a).b
            && ApplyOp(StrGe, a).b == !ApplyOp(StrLt, a).b
  {
    StrTrichotomy(x, y);
  }
}
