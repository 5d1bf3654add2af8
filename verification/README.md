# A Dafny model of a small Lisp interpreter in Rust

This project models the core of a small Scheme-like interpreter written in
Rust. The Rust code is caught half-way through a refactoring, so the core
exists in two generations. Each generation is modelled against its own text,
and the two are not reconciled.

**The newer generation** has five parts:

- **Values.** The `LispVal` datatype and its `Display` form
  (`lispval.dfy`, module `LispVal`).
- **Environment chain.** Frames of name-to-value maps, each with a parent
  link, plus `define`, `set` and `get` (`env.dfy`, module `Environment`).
  - Frames live in a store `map<FrameRef, Frame>`.
  - Every frame's parent has a smaller reference than the frame itself. This
    makes every chain finite.
  - Several children can share one ancestor, as the `Rc<RefCell<Env>>`
    handles of the source do.
- **Reader.** A recursive-descent grammar for strings, numbers, atoms,
  quotes, lists and dotted lists (`parser.dfy`, module `Parser`).
  - It was written with nom combinators. Here it is a parser over strings
    that returns a value and the unconsumed rest.
  - `alt` is ordered choice with backtracking.
  - `separated_list0` stops before a separator when no element follows it.
  - The `unwrap` of an oversized number is a panic outcome.
- **List and numeric primitives.** `cons`, `car`, `cdr`, `atleast`, `eqv?`,
  `equal?`, and the operator closures of the initial environment
  (`primitives.dfy`, module `Primitives`).

Laws relating these parts live in separate modules:

- `ReaderFacts`: how the reader dispatches on the first character, plus the
  parser's own unit tests.
- `RoundTrip`: printing a value and reading it back.
- `Layout`: the white-space layouts the reader accepts beyond the single spaces
  the printer writes, and the two it rejects: white space before `)` and a
  line break before the `.` of a dotted list.
- `PrimitiveFacts`: laws relating `cons`, `car` and `cdr`, the operator
  table, and the string order.

**The older generation** is the evaluator of `src/evaluation.rs`
(`evaluation.dfy`, module `Evaluation`).

- Its environment is a flat map. Its parent is a copy of the enclosing
  environment that is never read.
- Its functions have one body expression and capture nothing.
- Every operation takes the environment and returns the environment as it
  stands afterwards. A failed attempt can therefore already have bound
  names. For example:
  - `apply_primitive` runs twice on the same list, evaluating its operands
    twice;
  - `set_var` inserts the binding and then reports an error.
- The outcome of an operation is one of:
  - a value;
  - an error message, which the recognisers' caller drops;
  - a halt, which nothing catches. A halt is either a Rust panic or the
    exhaustion of the fuel that bounds the recursion.
- User functions can diverge, which is why the model needs fuel.
  `EvaluationFacts` proves this for a self-application, and also covers the
  evaluator's tests in `src/main.rs`.

Shared pieces:

- `Wrappers`: `Option` and `Result`.
- `LispErrors`: the `LispErr` enum.
- `Int64`: the `i64` range, truncating division, and decimal printing and
  parsing.

## Model

| member | source | states |
|---|---|---|
| Int64.DivRemLaws | src/primitive_functions.rs:123-124 | Rust's `/` and `%` truncate: quotient times divisor plus remainder is the dividend, and the remainder is smaller than the divisor and has the dividend's sign |
| Int64.DigitsValueOfNatDigits | src/lispval.rs:27 | the decimal digits printed for a natural number denote that number |
| Int64.ParseDecimal | src/evaluation.rs:166 | `str::parse::<i64>` of an integer's printed form gives the integer back |
| LispVal.RenderEach | src/lispval.rs:31-32 | one rendering per element, in order |
| LispVal.RenderNotInjective | src/lispval.rs:26-27 | the atom `5` and the number 5 are different values that print alike |
| LispVal.FuncRenderIgnoresVarargAndClosure | src/lispval.rs:39-42 | a function prints as `lambda`, its parameters and its body; its vararg and captured frame do not show |
| LispVal.RenderEmptyList | src/lispval.rs:30-33 | the empty list prints as `()` |
| Environment.Alloc | src/env.rs:15-20 | a new frame gets a reference greater than every existing one and no bindings; the store stays well formed |
| Environment.NewRoot | src/env.rs:15-17 | `Env::new` is a frame without parent or bindings |
| Environment.Child | src/env.rs:18-20 | `Env::child` is a fresh frame without bindings whose parent is the given frame; every existing frame is unchanged |
| Environment.Define | src/env.rs:34-37 | `define` always succeeds with the value, binds it in the local frame (overwriting), and changes no other frame and no parent link; the name then resolves to the value |
| Environment.Set | src/env.rs:22-32 | `set` fails with "Variable is not defined" exactly when no frame of the chain has the name, leaving the store as it was; otherwise it rebinds the name in the innermost frame holding it, and the name then resolves to the value |
| Environment.Chain | src/env.rs:39-48 | the frames `get` visits, from the frame itself outwards, all older than it |
| Environment.FirstBinding | src/env.rs:39-48 | the first frame of a chain that binds a name; no earlier frame binds it |
| Environment.Resolve | src/env.rs:39-48 | the innermost frame of the chain that binds the name |
| Environment.GetFindsInnermostBinding | src/env.rs:39-48 | `get` returns the binding of the innermost frame of the chain holding the name, and nothing when no frame holds it |
| Environment.GetReadsOnlyOlderFrames | src/env.rs:39-48 | a lookup depends only on the frame and older frames: stores that agree on those give the same answer |
| Environment.ChildSeesParent | src/env.rs:18-20 | a lookup through a fresh child gives what the lookup through its parent gives, and allocating the child changes no other lookup |
| Environment.DefineOnlyShadows | src/env.rs:34-37 | after `define` no lookup from an ancestor frame changes, and no other name changes from the frame itself |
| Environment.SetAddsNoName | src/env.rs:22-32 | `set` never adds a name to any frame and never changes a parent link |
| Environment.SetThroughSharedParent | src/env.rs:26-31 | a `set` delegated to a parent through one child is seen by `get` through a sibling child sharing that parent |
| Parser.ParseString | src/parser.rs:11-15 | succeeds exactly on a `"`, one or more characters other than `"`, and a closing `"`, yielding the characters between the quotes |
| Parser.DigitRuns | src/parser.rs:24 | `many0(digit1)` takes the longest run of digits |
| Parser.ParseNumber | src/parser.rs:23-25 | does not fail recoverably exactly when the input starts with a digit; yields the decimal value of the longest digit run, or panics when that value exceeds `i64::MAX` |
| Parser.AtomStart | src/parser.rs:47 | `alt((alpha1, symbol))` succeeds exactly on a letter or symbol character and takes only atom characters |
| Parser.AtomRun | src/parser.rs:48 | `alt((alphanumeric1, symbol))` succeeds exactly on an atom character |
| Parser.AtomTail | src/parser.rs:48 | `many0` of those runs takes the longest run of atom characters |
| Parser.ParseAtom | src/parser.rs:46-53 | succeeds exactly on a letter or symbol first character and takes the longest run of letters, digits and symbols; `#t` and `#f` become booleans, anything else an atom |
| Parser.Dotted | src/parser.rs:93-98 | `dotted` succeeds exactly when a `.` follows the leading run of spaces and tabs, and it leaves the text after the spaces and tabs that follow the `.`; the layouts are pinned by `Layout.DotLayout` and `Layout.DotAfterLineBreak` |
| Parser.ParseExpr | src/parser.rs:82-91 | every successful read consumes at least one character |
| Parser.ParseQuoted | src/parser.rs:72-75 | a successful quote consumes input; what it reads is stated by `RoundTrip.ReadQuote` |
| Parser.ParseQuoted2 | src/parser.rs:77-80 | a successful quote consumes input; what it reads is stated by `RoundTrip.ReadQuote` and `ReaderFacts.QuotedForms` |
| Parser.ParseVector | src/parser.rs:68-70 | `separated_list0` never fails recoverably and leaves a suffix of its input; `Layout.ReadSpacedVector` pins what it reads for any runs of white space between items |
| Parser.VectorTail | src/parser.rs:68-70 | the repetition after the first element never fails recoverably and leaves a suffix |
| Parser.ParseDottedList | src/parser.rs:100-105 | a successful dotted list consumes input |
| Parser.DottedTail | src/parser.rs:102-104 | the part after the head items consumes input when it succeeds |
| Parser.ParseList | src/parser.rs:107-112 | a successful list consumes input |
| ReaderFacts.ExprOfAtomStart | src/parser.rs:82-91 | a letter or symbol first character selects `parse_atom`, which succeeds; so `-5` is an atom |
| ReaderFacts.ExprOfDigit | src/parser.rs:82-91 | a digit first character selects `parse_number`, which reads a number or panics |
| ReaderFacts.ExprOfDoubleQuote | src/parser.rs:82-91 | a `"` selects `parse_string` |
| ReaderFacts.ExprOfApostrophe | src/parser.rs:82-91 | a `'` selects `parse_quoted` |
| ReaderFacts.ExprOfParen | src/parser.rs:88-89 | a `(` tries the dotted list before the list |
| ReaderFacts.ExprOfOther | src/parser.rs:82-91 | white space, `)`, `.` and any other character start no expression |
| ReaderFacts.ListRejectsSpaceAfterParen | src/parser.rs:107-112 | white space directly after `(` is not accepted |
| ReaderFacts.ReadNatDigits | src/parser.rs:23-25 | the digits of a number up to `i64::MAX`, followed by a non-digit, read back as that number; beyond it the reader panics |
| ReaderFacts.StringTest | src/parser.rs:17-21 | `"hello"` reads as the string `hello` with nothing left |
| ReaderFacts.EmptyStringRejected | src/parser.rs:11-15 | the empty string literal is not read |
| ReaderFacts.NumberTest | src/parser.rs:27-32 | `j5` and `jlsdf` are not numbers; `23` reads as 23 |
| ReaderFacts.AtomTest | src/parser.rs:59-66 | `$foo` reads as an atom and `#f` as false |
| ReaderFacts.QuotedTests | src/parser.rs:140-156 | `'52` reads as `Quote(52)` and, with the second quote reader, as `(quote 52)` |
| ReaderFacts.QuotedForms | src/parser.rs:72-80 | the two quote readers accept the same inputs, leave the same rest, and wrap the same expression |
| ReaderFacts.OverflowPanics | src/parser.rs:24 | the digits of `i64::MAX + 1` make the reader panic |
| RoundTrip.RenderStart | src/lispval.rs:26-33 | a readable value prints as text an expression can start with |
| RoundTrip.ReadValue | src/parser.rs:82-91 | atoms other than `#t` and `#f`, non-negative numbers, non-empty strings without `"`, and lists of these, once printed and followed by a delimiter, read back as themselves with the delimiter left over; booleans, quotations and dotted lists print in forms that read back differently (the lemmas below) |
| RoundTrip.ReadName | src/parser.rs:46-53 | a name followed by a delimiter reads as that atom |
| RoundTrip.ReadNumber | src/lispval.rs:27 | a non-negative number prints as digits that read back as the number |
| RoundTrip.ReadQuoted | src/parser.rs:11-15 | `parse_string` reads a non-empty run without `"` between quotes |
| RoundTrip.ReadString | src/lispval.rs:28 | a non-empty string without `"` prints in quotes and reads back |
| RoundTrip.ReadVector | src/parser.rs:68-70 | `parse_vector` reads the printed items of a list up to the closing `)` or ` .` |
| RoundTrip.ReadTail | src/parser.rs:68-70 | each further item one space away is read |
| RoundTrip.TailStops | src/parser.rs:68-70 | before `)` or ` .` the repetition ends without consuming the separator |
| RoundTrip.ReadList | src/parser.rs:107-112 | once the items are read up to `)`, the list is read |
| RoundTrip.DottedNeedsDot | src/parser.rs:100-105 | when the items are followed by `)`, the dotted-list branch fails recoverably so `alt` falls through to the list |
| RoundTrip.DotStep | src/parser.rs:93-98 | `dotted` consumes ` . ` |
| Layout.SeparatorStep | src/parser.rs:68-70 | any non-empty run of spaces, tabs, carriage returns and line feeds before an item separates it from the previous one |
| Layout.ItemsStop | src/parser.rs:68-70 | before white space and `)` or `.`, the repetition reads nothing and leaves the white space unread |
| Layout.ReadSpacedTail | src/parser.rs:68-70 | printed items, each after its own run of white space, are all read by the repetition |
| Layout.ReadSpacedVector | src/parser.rs:68-70 | `parse_vector` reads printed items separated by any runs of white space, up to the white space and `)` or `.` after them |
| Layout.ReadSpacedList | src/parser.rs:107-112 | a list with any runs of white space between its printed items reads as that list |
| Layout.ListRejectsSpaceBeforeParen | src/parser.rs:107-112 | white space before the closing `)` makes the text no expression at all |
| Layout.DotLayout | src/parser.rs:93-98 | `dotted` takes any spaces and tabs, possibly none, on either side of `.` and leaves what follows |
| Layout.DotAfterLineBreak | src/parser.rs:93-98 | `dotted` fails when a line break comes before the `.` |
| Layout.ReadSpacedDotted | src/parser.rs:100-105 | a dotted list with any runs of white space between its head items and any spaces and tabs around its `.` reads as that dotted list |
| Layout.DottedRejectsLineBreak | src/parser.rs:82-112 | a line break before the `.` of a dotted list makes the text no expression at all |
| RoundTrip.ReadDotted | src/lispval.rs:34-37 | a printed dotted list of readable values, with parentheses put back around it, reads as the same dotted list |
| RoundTrip.ReadQuote | src/parser.rs:72-80 | an apostrophe before a printed readable value `v` reads as `Quote(v)` through `parse_quoted` and `parse_expr`, and as `(quote v)` through `parse_quoted2` |
| RoundTrip.BooleanReadsAsAtom | src/lispval.rs:29 | booleans print as `true` and `false`, which read back as atoms, not booleans |
| RoundTrip.NegativeReadsAsAtom | src/lispval.rs:27 | a negative number prints with `-`, which reads back as an atom |
| RoundTrip.QuoteReadsAsAtom | src/lispval.rs:38 | a quotation prints as `quote` then its operand, which reads back as the atom `quote` |
| RoundTrip.DottedRenderReadsAsHead | src/lispval.rs:34-37 | a printed dotted list has no parentheses, and reads back as its first item only |
| Primitives.Cons | src/primitive_functions.rs:41-64 | fails with "Expected two arguments" exactly when the count is not two; otherwise puts the first argument in front of the items of the second and keeps its end (a non-list second argument becomes the tail of a dotted list) |
| Primitives.Car | src/primitive_functions.rs:66-75 | fails with "Expected one argument" or "Expected list", and succeeds exactly on one list or dotted list, giving its first item |
| Primitives.Atleast | src/primitive_functions.rs:94-99 | succeeds exactly when there are at least `i` items, else fails with "Expected at least i" |
| Primitives.Cdr | src/primitive_functions.rs:77-92 | fails on two or more arguments, on an empty list and on a non-list; succeeds on a non-empty list or a dotted list, dropping the first item and keeping the end; a one-headed dotted list gives its bare tail |
| Primitives.Eqv | src/primitive_functions.rs:101-103 | a boolean, true exactly when the first two arguments are the same value; such values also print alike |
| Primitives.Equal | src/primitive_functions.rs:104-106 | a boolean, true exactly when the first two arguments print alike, so in particular for equal values |
| Primitives.ApplyOp | src/primitive_functions.rs:120-139 | an arithmetic operator gives the number its exact operation gives (Rust's truncating `/` and `%` for division and `mod`), every other operator a boolean; the booleans are given by `PrimitiveFacts.NumericComparisons`, `LogicalOperators` and `StringOperators` |
| PrimitiveFacts.CarCons | src/primitive_functions.rs:41-75 | `car` of `cons(a, b)` is `a` for every `b` |
| PrimitiveFacts.CdrConsList | src/primitive_functions.rs:41-92 | `cdr` of `cons(a, xs)` is the list `xs` |
| PrimitiveFacts.CdrConsDotted | src/primitive_functions.rs:57-89 | `cdr` undoes `cons` onto a dotted list with heads; onto one without heads it gives the bare tail |
| PrimitiveFacts.CdrConsOther | src/primitive_functions.rs:62-89 | `cdr` of `cons(a, b)` is `b` for any non-list `b` |
| PrimitiveFacts.ConsCarCdr | src/primitive_functions.rs:41-92 | `cons(car v, cdr v)` gives back `v` exactly unless `v` is a one-headed dotted list whose tail is itself a list |
| PrimitiveFacts.EqualButNotEqv | src/primitive_functions.rs:101-106 | the atom `5` and the number 5 are `equal?` but not `eqv?` |
| PrimitiveFacts.EqvImpliesEqual | src/primitive_functions.rs:101-106 | arguments that are `eqv?` are also `equal?` |
| PrimitiveFacts.OperatorTableAsWritten | src/primitive_functions.rs:120-130 | as registered, `remainder` adds, `quotent` is `/`, and greater-or-equal is named `=>` while `>=` is unbound |
| PrimitiveFacts.DivideAndMod | src/primitive_functions.rs:123-124 | `/` and `mod` recover the dividend, with a remainder smaller than the divisor and of the dividend's sign |
| PrimitiveFacts.NumericComparisons | src/primitive_functions.rs:127-131 | `<`, `=` and `>` are the integer comparisons, so exactly one of them holds; `=>` is `>` or `=`, and `<=` is `<` or `=` |
| PrimitiveFacts.LogicalOperators | src/primitive_functions.rs:132-134 | `&&` is conjunction, `||` disjunction and `/=` exclusive or of two booleans |
| PrimitiveFacts.StrTrichotomy | src/primitive_functions.rs:135-137 | exactly one of `string<?`, `string=?`, `string>?` holds |
| PrimitiveFacts.StrLessTrans | src/primitive_functions.rs:136 | the string order is transitive |
| PrimitiveFacts.StringOperators | src/primitive_functions.rs:135-137 | `string=?` is equality, `string<?` the lexicographic order and `string>?` its converse |
| PrimitiveFacts.StringComparisons | src/primitive_functions.rs:135-139 | `string<=?` is the negation of `string>?`, and `string>=?` of `string<?` |
| Evaluation.Consume | src/evaluation.rs:71-76 | the next item, or the given error when there is none |
| Evaluation.ConsumeExact | src/evaluation.rs:78-85 | succeeds exactly when the next item is the expected one, else "Expected" and its printed form |
| Evaluation.ConsumeList | src/evaluation.rs:87-92 | succeeds exactly on a list, giving its elements, else "Expected list" |
| Evaluation.NothingToConsume | src/evaluation.rs:95-100 | succeeds exactly when no item is left, else names the extra item |
| Evaluation.ExtractStrFromAtom | src/evaluation.rs:102-108 | the name of an atom; an earlier error passes through |
| Evaluation.GetVar | src/evaluation.rs:132-137 | the binding in the environment's own map, else "Variable name is not defined"; the parent is never consulted |
| Evaluation.Checked | src/evaluation.rs:147-150 | an `i64` result, or the overflow panic |
| Evaluation.Arith | src/evaluation.rs:145-159 | fails exactly when the operator is not one of `+ - * / < > = !=`; the arithmetic ones give numbers (or panic), the comparisons booleans |
| Evaluation.Eval | src/evaluation.rs:23-34 | never removes a binding or changes the parent; only a list can change the environment; with no fuel it halts; its only errors are an unbound atom and "Function is nor recognised" |
| Evaluation.EvalList | src/evaluation.rs:36-57 | never removes a binding; its only error is "Function is nor recognised" |
| Evaluation.EvalAnyOf | src/evaluation.rs:59-68 | never removes a binding or changes the parent; its only error is "Function is nor recognised" |
| Evaluation.Try | src/evaluation.rs:40 | no recogniser removes a binding or changes the parent |
| Evaluation.ExtractNumValue | src/evaluation.rs:162-169 | leaves the environment the operand's evaluation left; a result is the operand's number, or the number `str::parse::<i64>` reads from its string; after a successful evaluation it panics exactly on a string that is not an `i64` (the `unwrap`), and it fails exactly when the evaluation failed or gave neither a number nor a string; errors and halts of the evaluation pass through unchanged |
| Evaluation.ApplyPrimitiveOf | src/evaluation.rs:139-160 | succeeds only on a list headed by one of the eight operators with two operands; with no operand at all it fails without touching the environment |
| Evaluation.DefineVarOf | src/evaluation.rs:110-118 | succeeds only on `(define name expr)`, and then `name` is bound to the result; a list not starting with `define` and an atom fails and leaves the environment alone; the value bound is stated by `EvaluationFacts.DefineVarBinds` |
| Evaluation.SetVarOf | src/evaluation.rs:120-130 | succeeds only on `(set! name expr)` when `name` was unbound after evaluating `expr`, and then `name` is bound to the result; a list not starting with `set!` and an atom fails and leaves the environment alone; the insert that precedes the error is stated by `EvaluationFacts.SetVarAsWritten` |
| Evaluation.DefineFuncOf | src/evaluation.rs:180-191 | succeeds exactly on `(define (name params...) body)`, binding `name` to a function of the printed parameters and that body and yielding the empty atom; otherwise the environment is unchanged; it never halts |
| Evaluation.BindArgs | src/evaluation.rs:212-215 | every parameter ends up bound, every entry of the callee's map for another name is kept, and no binding of the caller's environment is lost |
| Evaluation.EvalFunctionOf | src/evaluation.rs:193-216 | a call that does not fail names a function bound in the environment's own map, with as many arguments as parameters |
| EvaluationFacts.SelfEvaluating | src/evaluation.rs:23-34 | strings, numbers, booleans and dotted lists evaluate to themselves and a quotation to its operand, leaving the environment alone |
| EvaluationFacts.AtomIgnoresParent | src/evaluation.rs:132-137 | an atom evaluates to its binding in the environment's own map; unbound, it is an error; in a fresh child every atom is unbound |
| EvaluationFacts.NumberOperand | src/evaluation.rs:162-165 | a number operand yields itself |
| EvaluationFacts.StringOperand | src/evaluation.rs:162-169 | a string operand holding any `i64`'s printed form yields that `i64` |
| EvaluationFacts.InfixForm | src/evaluation.rs:139-160 | a list whose two operands are numbers and whose operator succeeds is settled by `apply_primitive` |
| EvaluationFacts.ArithMatchesTable | src/evaluation.rs:145-159 | for `+ - * / < > =`, the infix arithmetic gives the value the operator closure of the same name in `create_eden_env` gives, and panics exactly on the operands that closure does not accept |
| EvaluationFacts.NotEqualOperator | src/evaluation.rs:154 | the infix `!=`, which the operator table lacks, is integer inequality |
| EvaluationFacts.ListStep | src/evaluation.rs:36-44 | a list is settled by `apply_primitive` unless it fails, and then by the recognisers from the environment it left |
| EvaluationFacts.AddNumberAndString | src/main.rs:31-35 | `(+ 2 "3")` is 5 |
| EvaluationFacts.ExtraOperandsIgnored | src/main.rs:37-41 | `(- (+ 4 6 3) 3 5 2)` is 7, not 5: operands after the second are ignored |
| EvaluationFacts.NestedArithmetic | src/main.rs:43-47 | `(+ 2 (- 4 1))` is 5 |
| EvaluationFacts.DefineNumber | src/evaluation.rs:110-118 | `(define a n)` with `a` unbound yields `n` and binds `a` to it |
| EvaluationFacts.DefineVarBinds | src/evaluation.rs:110-118 | for every expression `e`, `(define name e)` binds `name` to the value of `e` in the environment its evaluation left and returns that value; an error or halt of `e` is passed on |
| EvaluationFacts.CallOfValueFails | src/evaluation.rs:197-204 | `(a)` with `a` bound to a value is not recognised, and changes nothing |
| EvaluationFacts.DefineThenUse | src/main.rs:52-62 | after `(define a 2)`, which yields 2, `a` evaluates to 2 but `(a)` fails; the unit test's expectation of 2 for `(a)` does not hold |
| EvaluationFacts.SetVarInverted | src/evaluation.rs:120-130 | for a number literal, `(set! name n)` binds the name whether or not it was bound, and fails exactly when it was |
| EvaluationFacts.SetVarAsWritten | src/evaluation.rs:120-130 | for every expression `e` that yields a value, `(set! name e)` binds `name` to it in every case and fails exactly when `name` was already bound after evaluating `e`; an error or halt of `e` is passed on |
| EvaluationFacts.SetFormReachesSetVar | src/evaluation.rs:36-44 | on `(set! name n)` every attempt before `set_var` fails without binding anything |
| EvaluationFacts.SetOfBoundName | src/evaluation.rs:120-130 | `(set! x n)` on a bound `x` is reported as unrecognised, yet `x` is now `n` |
| EvaluationFacts.SetOfUnboundName | src/evaluation.rs:120-130 | `(set! x n)` on an unbound `x` succeeds and creates the binding |
| EvaluationFacts.CallForm | src/evaluation.rs:36-68 | a list headed by an atom other than `define` and `set!`, on which `apply_primitive` fails without effect, is settled by `eval_function` |
| EvaluationFacts.BodySeesOnlyParameters | src/evaluation.rs:205-216 | a function body sees its parameters only: an atom body gives the argument if it is the parameter and fails otherwise, even when the caller binds it; the caller's environment is unchanged |
| EvaluationFacts.SelfApplicationDiverges | src/evaluation.rs:193-216 | `(f f)` where `f` is `(define (f g) (g g))` runs out of fuel for every amount of fuel |
| EvaluationFacts.PlainArgumentsKeepEnv | src/evaluation.rs:212-215 | arguments that are not lists are bound without changing the caller's environment |
| EvaluationFacts.CallKeepsCallerEnv | src/evaluation.rs:207-216 | a call with non-list arguments leaves the caller's environment as it was: the body's bindings stay in its own frame |
| EvaluationFacts.BindAllValues | src/evaluation.rs:212-215 | binding parameters in turn keeps every other entry and gives each parameter the value of its last occurrence |
| EvaluationFacts.BindArgsIsEvalArgs | src/evaluation.rs:212-215 | the argument loop evaluates the arguments left to right, each in the environment the one before left, stops at the first error or halt, and binds the parameters to the values in order |
| EvaluationFacts.PlainArgumentValues | src/evaluation.rs:212-215 | arguments that are not lists are each evaluated in the caller's environment, which none of them changes |
| EvaluationFacts.CallLeavesArgumentEnv | src/evaluation.rs:193-216 | after any call of a bound function with matching arity, the caller's environment is the one the argument evaluation left; the result is the body evaluated in a child holding only the parameters bound to the argument values, or the argument evaluation's error or halt |

## Left out

- The REPL loop and I/O of `src/main.rs`. Its unit tests are stated as lemmas.
- `load` and `src/systemFunctions.rs`: file I/O. `systemFunctions.rs` also calls a `parse_expr_list` that `src/parser.rs` does not define.
- `apply`: it calls `call_function`, which is not part of `src/evaluation.rs`.
- The coercions `num()`, `bool()` and `str()`, and the `PrimitiveFunc` variant: neither is defined in `src/lispval.rs`. The operator closures take only numbers, booleans or strings as their operations need. The initial environment is a map from names to primitive tags, not a frame of values.
- Primitives.Car, Primitives.Cdr, Primitives.Eqv, Primitives.Equal, Primitives.ApplyOp: the panics of out-of-range indexing, `i64` overflow and division by zero are preconditions, not outcomes.
- Primitives.Eqv: two functions compare by the reference of their captured frame. Rust's `PartialEq` on `Rc<RefCell<..>>` compares the frames' contents.
- Evaluation.Eval: the evaluation is bounded by fuel. Running out of fuel is a halt of its own, which the Rust code has no counterpart for; a run that does not run out of fuel follows the Rust code step for step.
- Evaluation.Eval: a value of the newer `Func` shape can reach the evaluator only through syntax the reader never produces. Evaluating one panics, as `todo!()` does. Bound to a name, it is treated as data rather than called.
- Evaluation.ExtractNumValue: its error message keeps the text before the `{:?}` rendering of the operand and drops the rendering. The message is always dropped by the recognisers' caller.
- Evaluation.Checked: the overflow checks are those of a debug build. A release build wraps around.
- The closure `define_func` computes and never uses (`env.child()`), and the unused `extract_string_value`.
- The iteration order of `HashMap`: no modelled operation depends on it.
- The commented-out dispatch code in `src/evaluation.rs`.
- The `list_parser_test` of `src/parser.rs`: it calls `parse_list` on input without a `(`, which fails.
- `src/error.rs` and `src/lispErr.rs` are a single plain datatype, `LispErrors.LispErr`.
- `Rc`/`RefCell` sharing is represented by the frame store, not modelled as mutation.
