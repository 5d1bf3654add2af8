/**
 * The evaluator of src/evaluation.rs, the older generation of the
 * interpreter. Its environment is a flat map of names with a parent that is
 * a copy of the enclosing environment and is never read, and its functions
 * have one body expression and capture nothing.
 *
 * `eval` and its helpers take the environment by mutable reference, so a
 * failed attempt keeps whatever it already bound. Every function here
 * returns the environment as it stands afterwards together with the
 * outcome: a value, a recoverable error message, or a halt. A halt is a
 * panic of the Rust code (an `unwrap`, an `i64` overflow, a division by
 * zero, `todo!()`) or the exhaustion of the fuel that bounds the recursion;
 * nothing catches a halt.
 */
module Evaluation {
  import opened Wrappers
  import opened Int64
  import opened LispVal

  /** What a name is bound to: a value, or a function made by `define_func`. */
  datatype Obj = Datum(v: Value) | Lambda(params: seq<string>, body: Value)

  datatype Env = Env(parent: Option<Env>, vars: map<string, Obj>)

  /** `Env::new`. */
  function NewEnv(): Env { Env(None, map[]) }

  /** `Env::child`: no bindings, and a copy of `e` as parent. */
  function Child(e: Env): Env { Env(Some(e), map[]) }

  datatype Halt = Panicked(reason: string) | OutOfFuel

  datatype Out<+T> = Done(value: T) | Failed(msg: string) | Halted(halt: Halt)

  /** An outcome and the environment after it. */
  datatype Step<+T> = Step(out: Out<T>, env: Env)

  /** The error `eval_any_of` reports when every recogniser failed. */
  const NotRecognised: string := "Function is nor recognised"

  /** The evaluator only adds bindings, and never changes the parent copy. */
  predicate Extends(e: Env, e2: Env)
  {
    e2.parent == e.parent && e.vars.Keys <= e2.vars.Keys
  }

  lemma ExtendsTrans(a: Env, b: Env, c: Env)
    requires Extends(a, b) && Extends(b, c)
    ensures Extends(a, c)
  {
  }

  /** `iter.next()` after `i` earlier calls. */
  function At(list: seq<Value>, i: nat): (r: Option<Value>)
    ensures r.Some? <==> i < |list|
    ensures r.Some? ==> r.value == list[i]
  {
    if i < |list| then Some(list[i]) else None
  }

  /** `consume`. */
  function Consume(opt: Option<Value>, e: string): (r: Result<Value, string>)
    ensures r.Ok? <==> opt.Some?
    ensures r.Ok? ==> r.value == opt.value
    ensures r.Err? ==> r.error == e
  {
    match opt
    case Some(v) => Ok(v)
    case None => Err(e)
  }

  /** `consume_exact`: the next item must equal `expected`. */
  function ConsumeExact(opt: Option<Value>, expected: Value): (r: Result<Value, string>)
    ensures r.Ok? <==> opt == Some(expected)
    ensures r.Err? ==> r.error == "Expected " + Render(expected)
  {
    match Consume(opt, "Expected " + Render(expected))
    case Err(e) => Err(e)
    case Ok(val) => if val == expected then Ok(val) else Err("Expected " + Render(expected))
  }

  /** `consume_list`: the next item must be a list; its elements. */
  function ConsumeList(opt: Option<Value>): (r: Result<seq<Value>, string>)
    ensures r.Ok? <==> opt.Some? && opt.value.List?
    ensures r.Ok? ==> r.value == opt.value.elems
    ensures r.Err? ==> r.error == "Expected list"
  {
    match Consume(opt, "Expected list")
    case Err(e) => Err(e)
    case Ok(v) => if v.List? then Ok(v.elems) else Err("Expected list")
  }

  /** `nothing_to_consume`: there must be no next item. */
  function NothingToConsume(opt: Option<Value>): (r: Result<(), string>)
    ensures r.Ok? <==> opt.None?
    ensures r.Err? ==> r.error == "Error unexpected value " + Render(opt.value)
  {
    match opt
    case Some(v) => Err("Error unexpected value " + Render(v))
    case None => Ok(())
  }

  /** `extract_str_from_atom`: the name of an atom, or the error passed along. */
  function ExtractStrFromAtom(r: Result<Value, string>): (o: Result<string, string>)
    ensures o.Ok? <==> r.Ok? && r.value.Atom?
    ensures o.Ok? ==> o.value == r.value.name
    ensures r.Err? ==> o == Err(r.error)
  {
    match r
    case Ok(v) => if v.Atom? then Ok(v.name) else Err("Expected atom but got " + Render(v))
    case Err(e) => Err(e)
  }

  /** `get_var`: the binding in this environment's own map; the parent is not consulted. */
  function GetVar(name: string, env: Env): (r: Result<Obj, string>)
    ensures r.Ok? <==> name in env.vars
    ensures r.Ok? ==> r.value == env.vars[name]
    ensures r.Err? ==> r.error == "Variable " + name + " is not defined"
  {
    if name in env.vars then Ok(env.vars[name]) else Err("Variable " + name + " is not defined")
  }

  /** An `i64` result, or the overflow panic of a debug build. */
  function Checked(n: int, what: string): (r: Out<Obj>)
    ensures r.Done? <==> InRange(n)
    ensures r.Done? ==> r.value == Datum(Number(n))
    ensures r.Halted? ==> r.halt == Panicked("attempt to " + what + " with overflow")
  {
    if InRange(n) then Done(Datum(Number(n))) else Halted(Panicked("attempt to " + what + " with overflow"))
  }

  /** The operators `apply_primitive` recognises. */
  predicate IsInfix(s: string)
  {
    s in {"+", "-", "*", "/", "<", ">", "=", "!="}
  }

  /** The `match` at the end of `apply_primitive`, once both operands are numbers. */
  function Arith(operator: Value, x: i64, y: i64): (r: Out<Obj>)
    ensures r.Failed? <==> !(operator.Atom? && IsInfix(operator.name))
    ensures r.Done? && operator.name in {"+", "-", "*", "/"} ==> r.value.Datum? && r.value.v.Number?
    ensures r.Done? && operator.name in {"<", ">", "=", "!="} ==> r.value.Datum? && r.value.v.Boolean?
    ensures r.Halted? ==> r.halt.Panicked?
  {
    if !operator.Atom? then Failed("Operation is not recognised: " + Render(operator))
    else
      var s := operator.name;
      if s == "+" then Checked(x + y, "add")
      else if s == "-" then Checked(x - y, "subtract")
      else if s == "*" then Checked(x * y, "multiply")
      else if s == "/" then
        (if y == 0 then Halted(Panicked("attempt to divide by zero")) else Checked(TruncDiv(x, y), "divide"))
      else if s == "<" then Done(Datum(Boolean(x < y)))
      else if s == ">" then Done(Datum(Boolean(x > y)))
      else if s == "=" then Done(Datum(Boolean(x == y)))
      else if s == "!=" then Done(Datum(Boolean(x != y)))
      else Failed("Invalid infix operator: " + s)
  }

  /** The recognisers `eval_list` tries. */
  datatype Recogniser = DefineFunc | ApplyPrimitive | DefineVar | SetVar | EvalFunction

  /** The order `eval_list` hands them to `eval_any_of`. */
  const Recognisers: seq<Recogniser> := [DefineFunc, ApplyPrimitive, DefineVar, SetVar, EvalFunction]

  /** The shape `define_func` accepts: `(define (name params...) body)`. */
  predicate IsFuncDefinition(list: seq<Value>)
  {
    && |list| == 3 && list[0] == Atom("define")
    && list[1].List? && |list[1].elems| > 0 && list[1].elems[0].Atom?
  }

  /**
   * `eval`. Every evaluation costs one unit of fuel; with none left the
   * evaluation halts.
   */
  function Eval(v: Value, env: Env, fuel: nat): (r: Step<Obj>)
    ensures Extends(env, r.env)
    ensures fuel == 0 ==> r == Step(Halted(OutOfFuel), env)
    ensures r.out.Failed? ==> r.out.msg == NotRecognised || (v.Atom? && r.out.msg == "Variable " + v.name + " is not defined")
    ensures !v.List? ==> r.env == env
    decreases fuel, 0, 0
  {
    if fuel == 0 then Step(Halted(OutOfFuel), env)
    else
      match v
      case Atom(name) =>
        (match GetVar(name, env)
         case Ok(o) => Step(Done(o), env)
         case Err(e) => Step(Failed(e), env))
      case String(_) => Step(Done(Datum(v)), env)
      case Number(_) => Step(Done(Datum(v)), env)
      case Boolean(_) => Step(Done(Datum(v)), env)
      case Quote(q) => Step(Done(Datum(q)), env)
      case List(l) => EvalList(l, env, fuel - 1)
      case DottedList(_, _) => Step(Done(Datum(v)), env)
      case Func(_, _, _, _) => Step(Halted(Panicked("not yet implemented")), env)
  }

  /** `eval_list`: `apply_primitive` first, then the recognisers in order, in the environment the first attempt left. */
  function EvalList(list: seq<Value>, env: Env, fuel: nat): (r: Step<Obj>)
    ensures Extends(env, r.env)
    ensures r.out.Failed? ==> r.out.msg == NotRecognised
    decreases fuel, 5, 0
  {
    var first := Try(ApplyPrimitive, list, env, fuel);
    if first.out.Failed? then
      var r := EvalAnyOf(list, first.env, Recognisers, fuel);
      ExtendsTrans(env, first.env, r.env);
      r
    else first
  }

  /** `eval_any_of`: the first recogniser that succeeds; errors are dropped, halts are not. */
  function EvalAnyOf(list: seq<Value>, env: Env, rs: seq<Recogniser>, fuel: nat): (r: Step<Obj>)
    ensures Extends(env, r.env)
    ensures r.out.Failed? ==> r.out.msg == NotRecognised
    decreases fuel, 4, |rs|
  {
    if rs == [] then Step(Failed(NotRecognised), env)
    else
      var s := Try(rs[0], list, env, fuel);
      if s.out.Failed? then
        var r := EvalAnyOf(list, s.env, rs[1..], fuel);
        ExtendsTrans(env, s.env, r.env);
        r
      else s
  }

  /** One recogniser applied to the list. */
  function Try(rec: Recogniser, list: seq<Value>, env: Env, fuel: nat): (r: Step<Obj>)
    ensures Extends(env, r.env)
    decreases fuel, 3, 0
  {
    match rec
    case DefineFunc => DefineFuncOf(list, env)
    case ApplyPrimitive => ApplyPrimitiveOf(list, env, fuel)
    case DefineVar => DefineVarOf(list, env, fuel)
    case SetVar => SetVarOf(list, env, fuel)
    case EvalFunction => EvalFunctionOf(list, env, fuel)
  }

  /** `extract_num_value`: evaluates, then takes a number, or parses a string with `unwrap`. */
  function ExtractNumValue(lv: Value, env: Env, fuel: nat): (r: Step<i64>)
    ensures Extends(env, r.env)
    ensures r.out.Halted? && r.out.halt.Panicked? && Eval(lv, env, fuel).out.Done? ==>
              var o := Eval(lv, env, fuel).out.value; o.Datum? && o.v.String? && ParseI64(o.v.s).None?
    ensures r.out.Done? ==>
              var o := Eval(lv, env, fuel).out;
              && o.Done? && o.value.Datum?
              && (o.value.v.Number? ==> r.out.value == o.value.v.n)
              && (o.value.v.String? ==> ParseI64(o.value.v.s) == Some(r.out.value))
              && (o.value.v.Number? || o.value.v.String?)
    ensures r.env == Eval(lv, env, fuel).env
    ensures var o := Eval(lv, env, fuel).out;
              o.Done? && o.value.Datum? && o.value.v.String? && ParseI64(o.value.v.s).None? ==>
                r.out.Halted? && r.out.halt.Panicked?
    ensures var o := Eval(lv, env, fuel).out;
              r.out.Failed? <==>
                (o.Failed? || (o.Done? && !(o.value.Datum? && (o.value.v.Number? || o.value.v.String?))))
    ensures var o := Eval(lv, env, fuel).out;
              (o.Failed? ==> r.out == Failed(o.msg)) && (o.Halted? ==> r.out == Halted(o.halt))
    decreases fuel, 1, 0
  {
    var s := Eval(lv, env, fuel);
    match s.out
    case Failed(e) => Step(Failed(e), s.env)
    case Halted(h) => Step(Halted(h), s.env)
    case Done(o) =>
      if o.Datum? && o.v.Number? then Step(Done(o.v.n), s.env)
      else if o.Datum? && o.v.String? then
        (match ParseI64(o.v.s)
         case Some(n) => Step(Done(n), s.env)
         case None => Step(Halted(Panicked("called `Result::unwrap()` on an `Err` value")), s.env))
      else Step(Failed("Left operand must be an integer"), s.env)
  }

  /**
   * `apply_primitive`: the operator item, then both operands evaluated and
   * made numbers, and only then the operator checked; items after the
   * second operand are ignored.
   */
  function ApplyPrimitiveOf(list: seq<Value>, env: Env, fuel: nat): (r: Step<Obj>)
    ensures Extends(env, r.env)
    ensures r.out.Done? ==> |list| >= 3 && list[0].Atom? && IsInfix(list[0].name)
    ensures |list| < 2 ==> r.out.Failed? && r.env == env
    decreases fuel, 2, 0
  {
    match Consume(At(list, 0), "Expect operator")
    case Err(e) => Step(Failed(e), env)
    case Ok(operator) =>
      match Consume(At(list, 1), "Expect argument")
      case Err(e) => Step(Failed(e), env)
      case Ok(lv) =>
        var left := ExtractNumValue(lv, env, fuel);
        match left.out
        case Failed(e) => Step(Failed(e), left.env)
        case Halted(h) => Step(Halted(h), left.env)
        case Done(x) =>
          match Consume(At(list, 2), "Expect argument")
          case Err(e) => Step(Failed(e), left.env)
          case Ok(rv) =>
            var right := ExtractNumValue(rv, left.env, fuel);
            ExtendsTrans(env, left.env, right.env);
            match right.out
            case Failed(e) => Step(Failed(e), right.env)
            case Halted(h) => Step(Halted(h), right.env)
            case Done(y) => Step(Arith(operator, x, y), right.env)
  }

  /**
   * `define_var`: `(define name expr)`. The expression is evaluated before
   * the check that nothing follows it; on success the name is bound in this
   * environment's own map.
   */
  function DefineVarOf(list: seq<Value>, env: Env, fuel: nat): (r: Step<Obj>)
    ensures Extends(env, r.env)
    ensures r.out.Done? ==>
              && |list| == 3 && list[0] == Atom("define") && list[1].Atom?
              && list[1].name in r.env.vars && r.env.vars[list[1].name] == r.out.value
    ensures !(|list| >= 3 && list[0] == Atom("define") && list[1].Atom?) ==> r == Step(r.out, env) && r.out.Failed?
    decreases fuel, 2, 0
  {
    match ConsumeExact(At(list, 0), Atom("define"))
    case Err(e) => Step(Failed(e), env)
    case Ok(_) =>
      match ExtractStrFromAtom(Consume(At(list, 1), "Expect variable name"))
      case Err(e) => Step(Failed(e), env)
      case Ok(name) =>
        match Consume(At(list, 2), "Expect variable value")
        case Err(e) => Step(Failed(e), env)
        case Ok(expr) =>
          var s := Eval(expr, env, fuel);
          match s.out
          case Failed(e) => Step(Failed(e), s.env)
          case Halted(h) => Step(Halted(h), s.env)
          case Done(val) =>
            match NothingToConsume(At(list, 3))
            case Err(e) => Step(Failed(e), s.env)
            case Ok(_) => Step(Done(val), s.env.(vars := s.env.vars[name := val]))
  }

  /**
   * `set_var` as written: `(set! name expr)` binds the name whether or not it
   * was bound, and then reports an error exactly when it was.
   */
  function SetVarOf(list: seq<Value>, env: Env, fuel: nat): (r: Step<Obj>)
    ensures Extends(env, r.env)
    ensures r.out.Done? ==>
              && |list| == 3 && list[0] == Atom("set!") && list[1].Atom?
              && list[1].name in r.env.vars && r.env.vars[list[1].name] == r.out.value
              && list[1].name !in Eval(list[2], env, fuel).env.vars
    ensures !(|list| >= 3 && list[0] == Atom("set!") && list[1].Atom?) ==> r == Step(r.out, env) && r.out.Failed?
    decreases fuel, 2, 0
  {
    match ConsumeExact(At(list, 0), Atom("set!"))
    case Err(e) => Step(Failed(e), env)
    case Ok(_) =>
      match ExtractStrFromAtom(Consume(At(list, 1), "Expect variable name"))
      case Err(e) => Step(Failed(e), env)
      case Ok(name) =>
        match Consume(At(list, 2), "Expect variable value")
        case Err(e) => Step(Failed(e), env)
        case Ok(expr) =>
          var s := Eval(expr, env, fuel);
          match s.out
          case Failed(e) => Step(Failed(e), s.env)
          case Halted(h) => Step(Halted(h), s.env)
          case Done(val) =>
            match NothingToConsume(At(list, 3))
            case Err(e) => Step(Failed(e), s.env)
            case Ok(_) =>
              var updated := s.env.(vars := s.env.vars[name := val]);
              if name in s.env.vars then Step(Failed("Variable is not defined " + name), updated)
              else Step(Done(val), updated)
  }

  /**
   * `define_func`: `(define (name params...) body)` binds `name` to a
   * function whose parameter names are the printed forms of the parameter
   * items, and yields the empty atom. Nothing is evaluated.
   */
  function DefineFuncOf(list: seq<Value>, env: Env): (r: Step<Obj>)
    ensures Extends(env, r.env)
    ensures r.out.Done? <==> IsFuncDefinition(list)
    ensures !r.out.Halted?
    ensures r.out.Done? ==>
              var d := list[1].elems;
              && r.out.value == Datum(Atom(""))
              && r.env == env.(vars := env.vars[d[0].name := Lambda(RenderEach(d[1..]), list[2])])
    ensures r.out.Failed? ==> r.env == env
  {
    match ConsumeExact(At(list, 0), Atom("define"))
    case Err(e) => Step(Failed(e), env)
    case Ok(_) =>
      match ConsumeList(At(list, 1))
      case Err(e) => Step(Failed(e), env)
      case Ok(definition) =>
        match ExtractStrFromAtom(Consume(At(definition, 0), "Expect function name"))
        case Err(e) => Step(Failed(e), env)
        case Ok(name) =>
          var params := RenderEach(definition[1..]);
          match Consume(At(list, 2), "Expect body")
          case Err(e) => Step(Failed(e), env)
          case Ok(body) =>
            match NothingToConsume(At(list, 3))
            case Err(e) => Step(Failed(e), env)
            case Ok(_) => Step(Done(Datum(Atom(""))), env.(vars := env.vars[name := Lambda(params, body)]))
  }

  /**
   * The loop of `eval_function`: each argument is evaluated in the caller's
   * environment, left to right, and bound to its parameter in `bound`.
   */
  function BindArgs(params: seq<string>, args: seq<Value>, env: Env, bound: map<string, Obj>, fuel: nat)
    : (r: Step<map<string, Obj>>)
    requires |args| == |params|
    ensures Extends(env, r.env)
    ensures r.out.Done? ==> bound.Keys <= r.out.value.Keys
    ensures r.out.Done? ==> forall i :: 0 <= i < |params| ==> params[i] in r.out.value
    ensures r.out.Done? ==> forall k | k in bound && k !in params :: k in r.out.value && r.out.value[k] == bound[k]
    decreases fuel, 1, |params|
  {
    if params == [] then Step(Done(bound), env)
    else
      var s := Eval(args[0], env, fuel);
      match s.out
      case Failed(e) => Step(Failed(e), s.env)
      case Halted(h) => Step(Halted(h), s.env)
      case Done(val) =>
        var rest := BindArgs(params[1..], args[1..], s.env, bound[params[0] := val], fuel);
        ExtendsTrans(env, s.env, rest.env);
        rest
  }

  /**
   * `eval_function`: the head names a function bound in this environment's
   * own map, called with as many arguments as it has parameters. The body
   * runs in a fresh environment holding only the parameters, whose parent is
   * a copy of the caller's environment taken before the arguments were
   * evaluated; whatever the body binds is dropped with it.
   */
  function EvalFunctionOf(list: seq<Value>, env: Env, fuel: nat): (r: Step<Obj>)
    ensures Extends(env, r.env)
    ensures !r.out.Failed? ==>
              && |list| > 0 && list[0].Atom? && list[0].name in env.vars
              && env.vars[list[0].name].Lambda? && |list| - 1 == |env.vars[list[0].name].params|
    decreases fuel, 2, 0
  {
    match ExtractStrFromAtom(Consume(At(list, 0), "Expect function name"))
    case Err(e) => Step(Failed(e), env)
    case Ok(name) =>
      if name !in env.vars then Step(Failed("Function " + name + " not found"), env)
      else
        match env.vars[name]
        case Datum(_) => Step(Failed("Incorrect function call"), env)
        case Lambda(params, body) =>
          var closure := Child(env);
          if |list| - 1 != |params| then Step(Failed("Incorrect argument list"), env)
          else
            var bound := BindArgs(params, list[1..], env, closure.vars, fuel);
            match bound.out
            case Failed(e) => Step(Failed(e), bound.env)
            case Halted(h) => Step(Halted(h), bound.env)
            case Done(vars) => Step(Eval(body, closure.(vars := vars), fuel).out, bound.env)
  }
}
