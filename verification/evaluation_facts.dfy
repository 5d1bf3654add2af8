/** What the evaluator of src/evaluation.rs does with particular forms. */
module EvaluationFacts {
  import opened Wrappers
  import opened Int64
  import opened LispVal
  import opened Evaluation
  import Primitives

  /** Strings, numbers, booleans and dotted lists evaluate to themselves, and a quoted value to the value. */
  lemma SelfEvaluating(v: Value, env: Env, fuel: nat)
    requires fuel > 0
    ensures v.String? || v.Number? || v.Boolean? || v.DottedList? ==> Eval(v, env, fuel) == Step(Done(Datum(v)), env)
    ensures v.Quote? ==> Eval(v, env, fuel) == Step(Done(Datum(v.quoted)), env)
  {
  }

  /** An atom is looked up in the environment's own map only: a binding in the parent is not found. */
  lemma AtomIgnoresParent(name: string, env: Env, fuel: nat)
    requires fuel > 0
    ensures name in env.vars ==> Eval(Atom(name), env, fuel) == Step(Done(env.vars[name]), env)
    ensures name !in env.vars ==> Eval(Atom(name), env, fuel) == Step(Failed("Variable " + name + " is not defined"), env)
    ensures Eval(Atom(name), Child(env), fuel).out.Failed?
  {
  }

  /** Helper: `str::parse::<i64>` reads "3" as 3. */
  lemma ThreeReadsAsThree()
    ensures ParseI64("3") == Some(3)
  {
    assert DigitChar(3) == '3';
    assert Decimal(3) == "3";
    ParseDecimal(3);
  }

  /** A number operand needs one unit of fuel and yields itself. */
  lemma NumberOperand(n: i64, env: Env, fuel: nat)
    requires fuel > 0
    ensures ExtractNumValue(Number(n), env, fuel) == Step(Done(n), env)
  {
  }

  /** Any integer's printed form, as a string operand, is read as that integer. */
  lemma StringOperand(n: i64, env: Env, fuel: nat)
    requires fuel > 0
    ensures ExtractNumValue(String(Decimal(n)), env, fuel) == Step(Done(n), env)
  {
    ParseDecimal(n);
  }

  /**
   * The infix operators `apply_primitive` shares with the initial environment
   * of src/primitive_functions.rs compute what the operator table's closures
   * compute, and panic exactly on the operands those closures do not accept.
   */
  lemma ArithMatchesTable(s: string, x: i64, y: i64)
    requires s in {"+", "-", "*", "/", "<", ">", "="}
    ensures s in Primitives.Eden && Primitives.Eden[s].Op?
    ensures var op := Primitives.Eden[s].op;
            && (Arith(Atom(s), x, y).Done? <==> Primitives.Accepts(op, Number(x), Number(y)))
            && (Primitives.Accepts(op, Number(x), Number(y)) ==>
                  Arith(Atom(s), x, y) == Done(Datum(Primitives.ApplyOp(op, [Number(x), Number(y)]))))
            && (!Primitives.Accepts(op, Number(x), Number(y)) ==> Arith(Atom(s), x, y).Halted?)
  {
    EdenInfix(s);
    ArithAgrees(s, InfixOp(s), x, y);
  }

  /** Helper: the table operation of an infix operator both evaluators know. */
  function InfixOp(s: string): Primitives.BinOp
  {
    if s == "+" then Primitives.Add else if s == "-" then Primitives.Sub
    else if s == "*" then Primitives.Mul else if s == "/" then Primitives.Div
    else if s == "<" then Primitives.NumLt else if s == ">" then Primitives.NumGt
    else Primitives.NumEq
  }

  /** Helper: the table binds each shared infix operator to its operation. */
  lemma EdenInfix(s: string)
    requires s in {"+", "-", "*", "/", "<", ">", "="}
    ensures s in Primitives.Eden && Primitives.Eden[s] == Primitives.Op(InfixOp(s))
  {
  }

  /** Helper: `Arith` on one shared infix operator against the closure of its operation. */
  lemma ArithAgrees(s: string, op: Primitives.BinOp, x: i64, y: i64)
    requires s in {"+", "-", "*", "/", "<", ">", "="} && op == InfixOp(s)
    ensures && (Arith(Atom(s), x, y).Done? <==> Primitives.Accepts(op, Number(x), Number(y)))
            && (Primitives.Accepts(op, Number(x), Number(y)) ==>
                  Arith(Atom(s), x, y) == Done(Datum(Primitives.ApplyOp(op, [Number(x), Number(y)]))))
            && (!Primitives.Accepts(op, Number(x), Number(y)) ==> Arith(Atom(s), x, y).Halted?)
  {
  }

  /**
   * A list whose first two operands evaluate to numbers without touching the
   * environment is settled by `apply_primitive` when its operator succeeds.
   */
  lemma InfixForm(list: seq<Value>, env: Env, fuel: nat, x: i64, y: i64)
    requires fuel > 0 && |list| >= 3
    requires ExtractNumValue(list[1], env, fuel - 1) == Step(Done(x), env)
    requires ExtractNumValue(list[2], env, fuel - 1) == Step(Done(y), env)
    requires Arith(list[0], x, y).Done?
    ensures Eval(List(list), env, fuel) == Step(Arith(list[0], x, y), env)
  {
    assert ApplyPrimitiveOf(list, env, fuel - 1) == Step(Arith(list[0], x, y), env);
    assert Try(ApplyPrimitive, list, env, fuel - 1) == Step(Arith(list[0], x, y), env);
    assert EvalList(list, env, fuel - 1) == Step(Arith(list[0], x, y), env);
  }

  /** `!=`, the one infix operator outside the operator table, is inequality. */
  lemma NotEqualOperator(x: i64, y: i64)
    ensures Arith(Atom("!="), x, y) == Done(Datum(Boolean(x != y)))
  {
  }

  /** Helper: the recognisers one after another. */
  lemma RecogniserOrder()
    ensures Recognisers[0] == DefineFunc && Recognisers[1..] == [ApplyPrimitive, DefineVar, SetVar, EvalFunction]
    ensures Recognisers[1..][0] == ApplyPrimitive && Recognisers[1..][1..] == Recognisers[2..]
    ensures Recognisers[2..][0] == DefineVar && Recognisers[2..][1..] == Recognisers[3..]
    ensures Recognisers[3..][0] == SetVar && Recognisers[3..][1..] == Recognisers[4..]
    ensures Recognisers[4..][0] == EvalFunction && Recognisers[4..][1..] == Recognisers[5..] == []
  {
  }

  /** A list is settled by `apply_primitive` unless it fails, and then by the recognisers in turn. */
  lemma ListStep(list: seq<Value>, env: Env, fuel: nat)
    requires fuel > 0
    ensures var first := ApplyPrimitiveOf(list, env, fuel - 1);
            Eval(List(list), env, fuel)
            == if first.out.Failed? then EvalAnyOf(list, first.env, Recognisers, fuel - 1) else first
  {
    assert Try(ApplyPrimitive, list, env, fuel - 1) == ApplyPrimitiveOf(list, env, fuel - 1);
  }

  /** `(+ 2 "3")` is 5: a string operand is parsed as a number. */
  lemma AddNumberAndString(env: Env, fuel: nat)
    requires fuel >= 2
    ensures Eval(List([Atom("+"), Number(2), String("3")]), env, fuel) == Step(Done(Datum(Number(5))), env)
  {
    ThreeReadsAsThree();
    NumberOperand(2, env, fuel - 1);
    InfixForm([Atom("+"), Number(2), String("3")], env, fuel, 2, 3);
  }

  /** `(+ 2 (- 4 1))` is 5. */
  lemma NestedArithmetic(env: Env, fuel: nat)
    requires fuel >= 3
    ensures Eval(List([Atom("+"), Number(2), List([Atom("-"), Number(4), Number(1)])]), env, fuel)
            == Step(Done(Datum(Number(5))), env)
  {
    var inner := List([Atom("-"), Number(4), Number(1)]);
    NumberOperand(4, env, fuel - 2);
    NumberOperand(1, env, fuel - 2);
    InfixForm([Atom("-"), Number(4), Number(1)], env, fuel - 1, 4, 1);
    NumberOperand(2, env, fuel - 1);
    InfixForm([Atom("+"), Number(2), inner], env, fuel, 2, 3);
  }

  /**
   * `(- (+ 4 6 3) 3 5 2)` is 7: an operator takes exactly two operands and
   * ignores the rest.
   */
  lemma ExtraOperandsIgnored(env: Env, fuel: nat)
    requires fuel >= 3
    ensures Eval(List([Atom("-"), List([Atom("+"), Number(4), Number(6), Number(3)]), Number(3), Number(5), Number(2)]), env, fuel)
            == Step(Done(Datum(Number(7))), env)
  {
    var inner := List([Atom("+"), Number(4), Number(6), Number(3)]);
    NumberOperand(4, env, fuel - 2);
    NumberOperand(6, env, fuel - 2);
    InfixForm([Atom("+"), Number(4), Number(6), Number(3)], env, fuel - 1, 4, 6);
    NumberOperand(3, env, fuel - 1);
    InfixForm([Atom("-"), inner, Number(3), Number(5), Number(2)], env, fuel, 10, 3);
  }

  /**
   * `(define a n)` with `a` unbound yields `n` and binds it: `apply_primitive`
   * fails on the unbound operand and `define_func` on the missing parameter
   * list before `define_var` succeeds.
   */
  lemma DefineNumber(a: string, n: i64, env: Env, fuel: nat)
    requires fuel >= 2 && a !in env.vars
    ensures Eval(List([Atom("define"), Atom(a), Number(n)]), env, fuel)
            == Step(Done(Datum(Number(n))), env.(vars := env.vars[a := Datum(Number(n))]))
  {
    var list := [Atom("define"), Atom(a), Number(n)];
    var f := fuel - 1;
    var after := Step(Done(Datum(Number(n))), env.(vars := env.vars[a := Datum(Number(n))]));
    assert Eval(Atom(a), env, f) == Step(Failed("Variable " + a + " is not defined"), env);
    assert ExtractNumValue(Atom(a), env, f) == Step(Failed("Variable " + a + " is not defined"), env);
    assert ApplyPrimitiveOf(list, env, f).out.Failed? && ApplyPrimitiveOf(list, env, f).env == env;
    assert DefineFuncOf(list, env) == Step(Failed("Expected list"), env);
    assert DefineVarOf(list, env, f) == after;
    assert EvalAnyOf(list, env, Recognisers[2..], f) == after;
    assert EvalAnyOf(list, env, Recognisers[1..], f) == after;
    assert EvalAnyOf(list, env, Recognisers, f) == after;
    ListStep(list, env, fuel);
  }

  /** A one-item list naming a bound value is not a call: every recogniser fails. */
  lemma CallOfValueFails(a: string, env: Env, fuel: nat)
    requires fuel >= 1 && a in env.vars && env.vars[a].Datum?
    ensures Eval(List([Atom(a)]), env, fuel) == Step(Failed(NotRecognised), env)
  {
    var list := [Atom(a)];
    var f := fuel - 1;
    var none := Step(Failed(NotRecognised), env);
    assert EvalAnyOf(list, env, Recognisers[5..], f) == none;
    assert Recognisers[4..] == [EvalFunction] && Recognisers[4..][1..] == Recognisers[5..];
    assert EvalFunctionOf(list, env, f) == Step(Failed("Incorrect function call"), env);
    assert EvalAnyOf(list, env, Recognisers[4..], f) == none;
    assert EvalAnyOf(list, env, Recognisers[3..], f) == none;
    assert EvalAnyOf(list, env, Recognisers[2..], f) == none;
    assert EvalAnyOf(list, env, Recognisers[1..], f) == none;
    assert EvalAnyOf(list, env, Recognisers, f) == none;
    assert ApplyPrimitiveOf(list, env, f) == Step(Failed("Expect argument"), env);
    ListStep(list, env, fuel);
  }

  /**
   * After `(define a 2)` the atom `a` evaluates to 2, but `(a)` is not
   * recognised: a bound value cannot be called.
   */
  lemma DefineThenUse(fuel: nat)
    requires fuel >= 2
    ensures var s := Eval(List([Atom("define"), Atom("a"), Number(2)]), NewEnv(), fuel);
            && s.out == Done(Datum(Number(2)))
            && Eval(Atom("a"), s.env, fuel) == Step(Done(Datum(Number(2))), s.env)
            && Eval(List([Atom("a")]), s.env, fuel) == Step(Failed(NotRecognised), s.env)
  {
    DefineNumber("a", 2, NewEnv(), fuel);
    var s := Eval(List([Atom("define"), Atom("a"), Number(2)]), NewEnv(), fuel);
    CallOfValueFails("a", s.env, fuel);
  }

  /**
   * `define_var` on `(define name e)`: `e` is evaluated, and a value is bound
   * to `name` in the environment the evaluation left and returned; an error
   * or halt of the evaluation is passed on with that environment.
   */
  lemma DefineVarBinds(name: string, e: Value, env: Env, fuel: nat)
    ensures var s := Eval(e, env, fuel);
            DefineVarOf([Atom("define"), Atom(name), e], env, fuel)
            == if s.out.Done? then Step(s.out, s.env.(vars := s.env.vars[name := s.out.value])) else s
  {
    var list := [Atom("define"), Atom(name), e];
    assert At(list, 3).None?;
  }

  /**
   * `set_var` as written on `(set! name e)`: once `e` yields a value, the
   * name is bound to it in every case, and an error is reported exactly when
   * the name was already bound in the environment the evaluation left; an
   * error or halt of the evaluation is passed on with that environment.
   */
  lemma SetVarAsWritten(name: string, e: Value, env: Env, fuel: nat)
    ensures var s := Eval(e, env, fuel);
            SetVarOf([Atom("set!"), Atom(name), e], env, fuel)
            == if s.out.Done? then
                 Step(if name in s.env.vars then Failed("Variable is not defined " + name) else s.out,
                      s.env.(vars := s.env.vars[name := s.out.value]))
               else s
  {
    var list := [Atom("set!"), Atom(name), e];
    assert At(list, 3).None?;
  }

  /**
   * `set_var` as written binds the name in every case, and reports an error
   * exactly when the name was already bound: the check is inverted.
   */
  lemma SetVarInverted(name: string, n: i64, env: Env, fuel: nat)
    requires fuel >= 1
    ensures SetVarOf([Atom("set!"), Atom(name), Number(n)], env, fuel)
            == Step(if name in env.vars then Failed("Variable is not defined " + name) else Done(Datum(Number(n))),
                    env.(vars := env.vars[name := Datum(Number(n))]))
  {
    assert Eval(Number(n), env, fuel) == Step(Done(Datum(Number(n))), env);
  }

  /** Before `set_var` is tried on `(set! name n)`, every earlier attempt fails and leaves the environment as it was. */
  lemma SetFormReachesSetVar(name: string, n: i64, env: Env, fuel: nat)
    requires fuel >= 2
    requires name in env.vars ==> !(env.vars[name].Datum? && env.vars[name].v.String?)
    ensures Eval(List([Atom("set!"), Atom(name), Number(n)]), env, fuel)
            == EvalAnyOf([Atom("set!"), Atom(name), Number(n)], env, Recognisers[3..], fuel - 1)
  {
    var list := [Atom("set!"), Atom(name), Number(n)];
    var f := fuel - 1;
    NumberOperand(n, env, f);
    assert Eval(Atom(name), env, f).env == env;
    assert ApplyPrimitiveOf(list, env, f).out.Failed? && ApplyPrimitiveOf(list, env, f).env == env;
    assert DefineFuncOf(list, env) == Step(Failed("Expected define"), env);
    assert DefineVarOf(list, env, f) == Step(Failed("Expected define"), env);
    RecogniserOrder();
    var last := EvalAnyOf(list, env, Recognisers[3..], f);
    assert EvalAnyOf(list, env, Recognisers[2..], f) == last;
    assert EvalAnyOf(list, env, Recognisers[1..], f) == last;
    assert EvalAnyOf(list, env, Recognisers, f) == last;
    ListStep(list, env, fuel);
  }

  /**
   * Through `eval`, `(set! name n)` on a bound name is reported as an
   * unrecognised form, yet the assignment has happened.
   */
  lemma SetOfBoundName(name: string, n: i64, env: Env, fuel: nat)
    requires fuel >= 2 && "set!" !in env.vars && name in env.vars
    requires !(env.vars[name].Datum? && env.vars[name].v.String?)
    ensures Eval(List([Atom("set!"), Atom(name), Number(n)]), env, fuel)
            == Step(Failed(NotRecognised), env.(vars := env.vars[name := Datum(Number(n))]))
  {
    var list := [Atom("set!"), Atom(name), Number(n)];
    var f := fuel - 1;
    var updated := env.(vars := env.vars[name := Datum(Number(n))]);
    assert EvalAnyOf(list, updated, Recognisers[4..], f) == Step(Failed(NotRecognised), updated) by {
      RecogniserOrder();
      assert EvalFunctionOf(list, updated, f) == Step(Failed("Function set! not found"), updated);
      assert Try(EvalFunction, list, updated, f) == Step(Failed("Function set! not found"), updated);
    }
    assert EvalAnyOf(list, env, Recognisers[3..], f) == Step(Failed(NotRecognised), updated) by {
      RecogniserOrder();
      SetVarInverted(name, n, env, f);
      assert Try(SetVar, list, env, f) == Step(Failed("Variable is not defined " + name), updated);
    }
    SetFormReachesSetVar(name, n, env, fuel);
  }

  /** Through `eval`, `(set! name n)` on an unbound name succeeds and creates the binding. */
  lemma SetOfUnboundName(name: string, n: i64, env: Env, fuel: nat)
    requires fuel >= 2 && name !in env.vars
    ensures Eval(List([Atom("set!"), Atom(name), Number(n)]), env, fuel)
            == Step(Done(Datum(Number(n))), env.(vars := env.vars[name := Datum(Number(n))]))
  {
    var list := [Atom("set!"), Atom(name), Number(n)];
    SetFormReachesSetVar(name, n, env, fuel);
    SetVarInverted(name, n, env, fuel - 1);
    RecogniserOrder();
    assert Try(SetVar, list, env, fuel - 1) == SetVarOf(list, env, fuel - 1);
  }

  /**
   * A list headed by an atom other than `define` and `set!`, on which
   * `apply_primitive` fails without binding anything, is settled by
   * `eval_function`.
   */
  lemma CallForm(list: seq<Value>, env: Env, fuel: nat)
    requires fuel >= 1 && |list| >= 1 && list[0].Atom? && list[0].name != "define" && list[0].name != "set!"
    requires ApplyPrimitiveOf(list, env, fuel - 1).out.Failed? && ApplyPrimitiveOf(list, env, fuel - 1).env == env
    ensures var call := EvalFunctionOf(list, env, fuel - 1);
            Eval(List(list), env, fuel) == if call.out.Failed? then Step(Failed(NotRecognised), call.env) else call
  {
    var f := fuel - 1;
    RecogniserOrder();
    assert DefineFuncOf(list, env) == Step(Failed("Expected define"), env);
    assert DefineVarOf(list, env, f) == Step(Failed("Expected define"), env);
    assert SetVarOf(list, env, f) == Step(Failed("Expected set!"), env);
    var last := EvalAnyOf(list, env, Recognisers[4..], f);
    var call := EvalFunctionOf(list, env, f);
    assert Try(EvalFunction, list, env, f) == call;
    assert EvalAnyOf(list, call.env, Recognisers[5..], f) == Step(Failed(NotRecognised), call.env);
    assert last == if call.out.Failed? then Step(Failed(NotRecognised), call.env) else call;
    assert EvalAnyOf(list, env, Recognisers[3..], f) == last;
    assert EvalAnyOf(list, env, Recognisers[2..], f) == last;
    assert EvalAnyOf(list, env, Recognisers[1..], f) == last;
    assert EvalAnyOf(list, env, Recognisers, f) == last;
    ListStep(list, env, fuel);
  }

  /**
   * A function body sees its parameters and nothing else: calling a
   * one-parameter function whose body is an atom gives the argument when the
   * atom is the parameter, and fails otherwise, even when the caller binds
   * the atom. The caller's environment is unchanged.
   */
  lemma BodySeesOnlyParameters(fname: string, p: string, y: string, n: i64, env: Env, fuel: nat)
    requires fuel >= 2 && fname != "define" && fname != "set!"
    requires fname in env.vars && env.vars[fname] == Lambda([p], Atom(y))
    ensures Eval(List([Atom(fname), Number(n)]), env, fuel)
            == Step(if y == p then Done(Datum(Number(n))) else Failed(NotRecognised), env)
  {
    var list := [Atom(fname), Number(n)];
    var f := fuel - 1;
    NumberOperand(n, env, f);
    assert ApplyPrimitiveOf(list, env, f) == Step(Failed("Expect argument"), env);
    CallForm(list, env, fuel);
    var closure := Env(Some(env), map[p := Datum(Number(n))]);
    assert BindArgs([p], list[1..], env, map[], f) == Step(Done(map[p := Datum(Number(n))]), env);
    assert EvalFunctionOf(list, env, f) == Step(Eval(Atom(y), closure, f).out, env);
  }

  /** A function that applies its parameter to itself. */
  function SelfApply(): Obj
  {
    Lambda(["g"], List([Atom("g"), Atom("g")]))
  }

  /** Applying `SelfApply` to itself runs out of fuel whatever the fuel: the evaluation never ends. */
  lemma {:induction false} SelfApplicationDiverges(fname: string, env: Env, fuel: nat)
    requires fname in env.vars && env.vars[fname] == SelfApply() && fname != "define" && fname != "set!"
    ensures Eval(List([Atom(fname), Atom(fname)]), env, fuel).out == Halted(OutOfFuel)
    decreases fuel
  {
    var list := [Atom(fname), Atom(fname)];
    if fuel > 0 {
      var f := fuel - 1;
      if f == 0 {
        assert ApplyPrimitiveOf(list, env, f).out == Halted(OutOfFuel);
        ListStep(list, env, fuel);
      } else {
        assert Eval(Atom(fname), env, f) == Step(Done(SelfApply()), env);
        assert ApplyPrimitiveOf(list, env, f) == Step(Failed("Left operand must be an integer"), env);
        CallForm(list, env, fuel);
        var closure := Env(Some(env), map["g" := SelfApply()]);
        assert BindArgs(["g"], list[1..], env, map[], f) == Step(Done(closure.vars), env);
        assert EvalFunctionOf(list, env, f) == Step(Eval(List([Atom("g"), Atom("g")]), closure, f).out, env);
        SelfApplicationDiverges("g", closure, f);
      }
    }
  }

  /** Arguments that are not lists bind their parameters without changing the caller's environment. */
  lemma {:induction false} PlainArgumentsKeepEnv(params: seq<string>, args: seq<Value>, env: Env, bound: map<string, Obj>, fuel: nat)
    requires |args| == |params|
    requires forall i | 0 <= i < |args| :: !args[i].List?
    ensures BindArgs(params, args, env, bound, fuel).env == env
    decreases |params|
  {
    if params != [] {
      var s := Eval(args[0], env, fuel);
      if s.out.Done? {
        PlainArgumentsKeepEnv(params[1..], args[1..], s.env, bound[params[0] := s.out.value], fuel);
      }
    }
  }

  /**
   * A call whose arguments are not lists leaves the caller's environment as
   * it was: whatever the body binds stays in the callee's frame.
   */
  lemma CallKeepsCallerEnv(list: seq<Value>, env: Env, fuel: nat)
    requires forall i | 1 <= i < |list| :: !list[i].List?
    ensures EvalFunctionOf(list, env, fuel).env == env
  {
    if |list| > 0 && list[0].Atom? && list[0].name in env.vars && env.vars[list[0].name].Lambda? {
      var params := env.vars[list[0].name].params;
      if |list| - 1 == |params| {
        PlainArgumentsKeepEnv(params, list[1..], env, map[], fuel);
      }
    }
  }

  /** The arguments evaluated left to right, each in the environment the one before left; the first error or halt stops. */
  function EvalArgs(args: seq<Value>, env: Env, fuel: nat): Step<seq<Obj>>
    decreases |args|
  {
    if args == [] then Step(Done([]), env)
    else
      var s := Eval(args[0], env, fuel);
      match s.out
      case Failed(e) => Step(Failed(e), s.env)
      case Halted(h) => Step(Halted(h), s.env)
      case Done(v) =>
        var rest := EvalArgs(args[1..], s.env, fuel);
        match rest.out
        case Done(vs) => Step(Done([v] + vs), rest.env)
        case Failed(e) => Step(Failed(e), rest.env)
        case Halted(h) => Step(Halted(h), rest.env)
  }

  /** Each parameter bound to its value in turn, so that a repeated parameter keeps its last value. */
  function BindAll(m: map<string, Obj>, params: seq<string>, vals: seq<Obj>): map<string, Obj>
    requires |params| == |vals|
    decreases |params|
  {
    if params == [] then m else BindAll(m[params[0] := vals[0]], params[1..], vals[1..])
  }

  /** Binding keeps every other entry and gives each parameter the value of its last occurrence. */
  lemma {:induction false} BindAllValues(m: map<string, Obj>, params: seq<string>, vals: seq<Obj>)
    requires |params| == |vals|
    ensures forall k | k in m && k !in params :: k in BindAll(m, params, vals) && BindAll(m, params, vals)[k] == m[k]
    ensures forall i | 0 <= i < |params| && params[i] !in params[i + 1..] ::
              params[i] in BindAll(m, params, vals) && BindAll(m, params, vals)[params[i]] == vals[i]
    decreases |params|
  {
    if params != [] {
      var m1 := m[params[0] := vals[0]];
      BindAllValues(m1, params[1..], vals[1..]);
      forall i | 0 <= i < |params| && params[i] !in params[i + 1..]
        ensures params[i] in BindAll(m, params, vals) && BindAll(m, params, vals)[params[i]] == vals[i]
      {
        if i > 0 {
          assert params[1..][i - 1] == params[i] && params[1..][i - 1 + 1..] == params[i + 1..];
        } else {
          assert params[0] in m1 && params[0] !in params[1..];
        }
      }
    }
  }

  /**
   * The loop of `eval_function` evaluates the arguments as `EvalArgs` does,
   * leaves the same environment behind, and binds the parameters to the
   * values in order.
   */
  lemma {:induction false} BindArgsIsEvalArgs(params: seq<string>, args: seq<Value>, env: Env, bound: map<string, Obj>, fuel: nat)
    requires |args| == |params|
    ensures var b := BindArgs(params, args, env, bound, fuel);
            var e := EvalArgs(args, env, fuel);
            && b.env == e.env
            && (b.out.Done? <==> e.out.Done?)
            && (b.out.Failed? ==> e.out == Failed(b.out.msg))
            && (b.out.Halted? ==> e.out == Halted(b.out.halt))
            && (b.out.Done? ==> |e.out.value| == |params| && b.out.value == BindAll(bound, params, e.out.value))
    decreases |params|
  {
    if params != [] {
      var s := Eval(args[0], env, fuel);
      if s.out.Done? {
        var bound1 := bound[params[0] := s.out.value];
        BindArgsIsEvalArgs(params[1..], args[1..], s.env, bound1, fuel);
        var e := EvalArgs(args[1..], s.env, fuel);
        if e.out.Done? {
          assert ([s.out.value] + e.out.value)[1..] == e.out.value;
        }
      }
    }
  }

  /**
   * Whatever a call does, the caller's environment afterwards is the one
   * its argument evaluation left: the body's own bindings never reach it.
   * The body sees only the parameters bound to the argument values.
   */
  lemma CallLeavesArgumentEnv(list: seq<Value>, env: Env, fuel: nat)
    requires |list| > 0 && list[0].Atom? && list[0].name in env.vars && env.vars[list[0].name].Lambda?
    requires |list| - 1 == |env.vars[list[0].name].params|
    ensures var f := env.vars[list[0].name];
            var a := EvalArgs(list[1..], env, fuel);
            var r := EvalFunctionOf(list, env, fuel);
            && r.env == a.env
            && (a.out.Done? ==> |a.out.value| == |f.params|)
            && (a.out.Done? ==> r.out == Eval(f.body, Child(env).(vars := BindAll(map[], f.params, a.out.value)), fuel).out)
            && (a.out.Failed? ==> r.out == Failed(a.out.msg))
            && (a.out.Halted? ==> r.out == Halted(a.out.halt))
  {
    var f := env.vars[list[0].name];
    BindArgsIsEvalArgs(f.params, list[1..], env, map[], fuel);
  }

  /** Arguments that are not lists are each evaluated in the caller's environment, which none of them changes. */
  lemma {:induction false} PlainArgumentValues(args: seq<Value>, env: Env, fuel: nat)
    requires forall i | 0 <= i < |args| :: !args[i].List?
    ensures var a := EvalArgs(args, env, fuel);
            && a.env == env
            && (a.out.Done? ==> |a.out.value| == |args| &&
                                forall i | 0 <= i < |args| :: Eval(args[i], env, fuel).out == Done(a.out.value[i]))
    decreases |args|
  {
    if args != [] {
      var s := Eval(args[0], env, fuel);
      PlainArgumentValues(args[1..], s.env, fuel);
      var rest := EvalArgs(args[1..], s.env, fuel);
      if s.out.Done? && rest.out.Done? {
        forall i | 0 <= i < |args|
          ensures Eval(args[i], env, fuel).out == Done(([s.out.value] + rest.out.value)[i])
        {
          if i > 0 {
            assert args[1..][i - 1] == args[i];
          }
        }
      }
    }
  }
}
