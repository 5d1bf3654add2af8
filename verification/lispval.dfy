/**
 * The value datatype of src/lispval.rs and its canonical text form (its
 * `Display` implementation).
 */
module LispVal {
  import opened Wrappers
  import opened Int64

  /** A reference to a frame of the environment store (the `Rc<RefCell<..>>` handle). */
  type FrameRef = nat

  datatype Value =
    | Atom(name: string)
    | Number(n: i64)
    | String(s: string)
    | Boolean(b: bool)
    | List(elems: seq<Value>)
    | DottedList(heads: seq<Value>, tail: Value)
    | Quote(quoted: Value)
    | Func(args: seq<string>, vararg: Option<string>, body: seq<Value>, closure: FrameRef)

  /** The strings joined by single spaces. */
  function Join(ss: seq<string>): string
  {
    if ss == [] then ""
    else if |ss| == 1 then ss[0]
    else ss[0] + " " + Join(ss[1..])
  }

  /** The canonical text of a value. */
  function Render(v: Value): string
  {
    match v
    case Atom(s) => s
    case Number(n) => Decimal(n)
    case String(s) => "\"" + s + "\""
    case Boolean(b) => if b then "true" else "false"
    case List(vs) => "(" + Join(RenderEach(vs)) + ")"
    case DottedList(vs, t) => Join(RenderEach(vs)) + " . " + Render(t)
    case Quote(q) => "quote " + Render(q)
    case Func(args, _, body, _) => "lambda " + Join(args) + " " + Join(RenderEach(body))
  }

  /** The rendering of each value, in order. */
  function RenderEach(vs: seq<Value>): (r: seq<string>)
    ensures |r| == |vs|
    ensures forall i | 0 <= i < |vs| :: r[i] == Render(vs[i])
  {
    if vs == [] then [] else [Render(vs[0])] + RenderEach(vs[1..])
  }

  /** Rendering forgets the variant: an atom named "5" and the number 5 print alike. */
  lemma RenderNotInjective()
    ensures Atom("5") != Number(5) && Render(Atom("5")) == Render(Number(5)) == "5"
  {
    assert NatDigits(5) == ['5'];
  }

  /** A function's vararg and captured frame do not show in its rendering. */
  lemma FuncRenderIgnoresVarargAndClosure(args: seq<string>, body: seq<Value>,
                                          va: Option<string>, vb: Option<string>,
                                          ca: FrameRef, cb: FrameRef)
    ensures Render(Func(args, va, body, ca)) == Render(Func(args, vb, body, cb))
  {
  }

  /** The empty list prints as a pair of parentheses. */
  lemma RenderEmptyList()
    ensures Render(List([])) == "()"
  {
  }
}
