/**
 * The reader of src/parser.rs. Each nom combinator becomes a function from
 * the input to a `Parse` outcome: a value with the unconsumed rest, a
 * recoverable failure (nom's `Err::Error`, which lets `alt` try the next
 * branch), or a panic from the `unwrap` of an oversized number.
 */
module Parser {
  import opened Int64
  import opened LispVal

  datatype Parse<+T> = Parsed(value: T, rest: string) | NoParse | Panicked

  predicate IsAlpha(c: char) { 'a' <= c <= 'z' || 'A' <= c <= 'Z' }

  predicate IsAlphanumeric(c: char) { IsAlpha(c) || IsDigit(c) }

  /** The characters of `symbol`'s `is_a` set. */
  predicate IsSymbolChar(c: char)
  {
    || c == '!' || c == '#' || c == '$' || c == '%' || c == '&' || c == '|'
    || c == '*' || c == '+' || c == '-' || c == '/' || c == ':' || c == '<'
    || c == '=' || c == '>' || c == '?' || c == '@' || c == '^' || c == '_' || c == '~'
  }

  predicate IsAtomChar(c: char) { IsAlphanumeric(c) || IsSymbolChar(c) }

  /** `multispace1`'s characters. */
  predicate IsMultispace(c: char) { c == ' ' || c == '\t' || c == '\r' || c == '\n' }

  /** `space0`'s characters. */
  predicate IsSpace(c: char) { c == ' ' || c == '\t' }

  /** The character classes the reader's runs are made of. */
  datatype Class = Alpha | Alphanumeric | Digit | Symbol | AtomChar | Multispace | Space | NotQuote

  predicate In(k: Class, c: char)
  {
    match k
    case Alpha => IsAlpha(c)
    case Alphanumeric => IsAlphanumeric(c)
    case Digit => IsDigit(c)
    case Symbol => IsSymbolChar(c)
    case AtomChar => IsAtomChar(c)
    case Multispace => IsMultispace(c)
    case Space => IsSpace(c)
    case NotQuote => c != '"'
  }

  /** `r` is what remains of `s` after dropping some prefix. */
  predicate Suffix(r: string, s: string)
    decreases |s|
  {
    |r| <= |s| && (r == s || Suffix(r, s[1..]))
  }

  /** `r` remains of `s` after dropping a non-empty prefix. */
  predicate ProperSuffix(r: string, s: string)
  {
    |r| < |s| && Suffix(r, s[1..])
  }

  lemma {:induction false} SuffixIsDrop(r: string, s: string)
    requires Suffix(r, s)
    ensures r == s[|s| - |r|..]
    decreases |s|
  {
    if r != s {
      SuffixIsDrop(r, s[1..]);
    }
  }

  lemma {:induction false} SuffixTrans(a: string, b: string, c: string)
    requires Suffix(a, b) && Suffix(b, c)
    ensures Suffix(a, c)
    decreases |c|
  {
    if b != c {
      SuffixTrans(a, b, c[1..]);
    }
  }

  lemma ProperSuffixTrans(a: string, b: string, c: string)
    requires Suffix(a, b) && Suffix(b, c) && (ProperSuffix(a, b) || ProperSuffix(b, c))
    ensures ProperSuffix(a, c)
  {
    if ProperSuffix(a, b) {
      SuffixTrans(b[1..], b, c);
      if b == c {
      } else {
        SuffixTrans(a, b, c[1..]);
      }
    } else {
      SuffixTrans(a, b, c[1..]);
    }
  }

  lemma {:induction false} DropIsSuffix(s: string, n: nat)
    requires n <= |s|
    ensures Suffix(s[n..], s)
    ensures n > 0 ==> ProperSuffix(s[n..], s)
    decreases n
  {
    if n > 0 {
      assert s[n..] == s[1..][n - 1..];
      DropIsSuffix(s[1..], n - 1);
    }
  }

  /** The length of the longest prefix of `s` whose characters are all in class `k`. */
  function Span(k: Class, s: string): (n: nat)
    ensures n <= |s|
    ensures forall i | 0 <= i < n :: In(k, s[i])
    ensures n < |s| ==> !In(k, s[n])
  {
    if s == [] || !In(k, s[0]) then 0 else 1 + Span(k, s[1..])
  }

  /** Any prefix length with the two properties of `Span` is `Span`. */
  lemma SpanUnique(k: Class, s: string, n: nat)
    requires n <= |s|
    requires forall i | 0 <= i < n :: In(k, s[i])
    requires n < |s| ==> !In(k, s[n])
    ensures Span(k, s) == n
  {
  }

  /**
   * The longest non-empty run of characters of class `k`: nom's `alpha1`,
   * `alphanumeric1`, `digit1`, `multispace1`, `is_a` and `is_not`.
   */
  function Take1(k: Class, s: string): (r: Parse<string>)
    ensures !r.Panicked?
    ensures r.Parsed? <==> |s| > 0 && In(k, s[0])
    ensures r.Parsed? ==> r.value == s[..Span(k, s)] && r.rest == s[Span(k, s)..]
    ensures r.Parsed? ==> ProperSuffix(r.rest, s) && r.value + r.rest == s
  {
    var n := Span(k, s);
    if n == 0 then NoParse
    else
      DropIsSuffix(s, n);
      Parsed(s[..n], s[n..])
  }

  /** The longest, possibly empty, run of characters of class `k` (`space0`) and the rest. */
  function Take0(k: Class, s: string): (r: (string, string))
    ensures r.0 + r.1 == s && Suffix(r.1, s)
    ensures |r.1| > 0 ==> !In(k, r.1[0])
  {
    var n := Span(k, s);
    DropIsSuffix(s, n);
    (s[..n], s[n..])
  }

  /** `char(c)`. */
  function Char(c: char, s: string): (r: Parse<char>)
    ensures !r.Panicked?
    ensures r.Parsed? <==> |s| > 0 && s[0] == c
    ensures r.Parsed? ==> r.rest == s[1..] && ProperSuffix(r.rest, s)
  {
    if |s| > 0 && s[0] == c then Parsed(c, s[1..]) else NoParse
  }

  /** `alt` of two branches: the first unless it failed recoverably. */
  function Alt<T>(first: Parse<T>, second: Parse<T>): Parse<T>
  {
    if first.NoParse? then second else first
  }

  /** `parse_string`: `"`, one or more characters other than `"`, then `"`. */
  function ParseString(s: string): (r: Parse<Value>)
    ensures !r.Panicked?
    ensures r.Parsed? <==> |s| > 0 && s[0] == '"' && 0 < Span(NotQuote, s[1..]) < |s| - 1
    ensures r.Parsed? ==> var n := Span(NotQuote, s[1..]);
                          r.value == String(s[1..n + 1]) && r.rest == s[n + 2..]
    ensures r.Parsed? ==> ProperSuffix(r.rest, s)
  {
    match Char('"', s)
    case Parsed(_, s1) =>
      (match Take1(NotQuote, s1)
       case Parsed(content, s2) =>
         (match Char('"', s2)
          case Parsed(_, s3) =>
            ProperSuffixTrans(s2, s1, s);
            ProperSuffixTrans(s3, s2, s);
            Parsed(String(content), s3)
          case _ => NoParse)
       case _ => NoParse)
    case _ => NoParse
  }

  /** A run of class `k` followed by the longest run of class `k` after it is the longest run. */
  lemma RunStep(k: Class, s: string, run: string, s1: string, more: string, s2: string)
    requires run + s1 == s && forall i | 0 <= i < |run| :: In(k, run[i])
    requires var n := Span(k, s1); (more, s2) == (s1[..n], s1[n..])
    ensures var n := Span(k, s); (run + more, s2) == (s[..n], s[n..])
    ensures Span(k, s) == |run| + |more| && run + more == s[..|run| + |more|] && s2 == s[|run| + |more|..]
  {
    var m := Span(k, s1);
    var n := |run| + m;
    assert s[|run|..] == s1;
    forall i | 0 <= i < n ensures In(k, s[i]) {
      if i >= |run| { assert s[i] == s1[i - |run|]; }
    }
    if n < |s| { assert s[n] == s1[m]; }
    SpanUnique(k, s, n);
    assert s[..n] == run + s1[..m];
  }

  /** `many0(digit1)`: digit runs, concatenated, and the rest. */
  function DigitRuns(s: string): (r: (string, string))
    ensures var n := Span(Digit, s); r == (s[..n], s[n..])
    decreases |s|
  {
    match Take1(Digit, s)
    case Parsed(run, s1) =>
      var (more, s2) := DigitRuns(s1);
      RunStep(Digit, s, run, s1, more, s2);
      (run + more, s2)
    case _ =>
      ("", s)
  }

  /**
   * `parse_number`: `many1(digit1)` takes the longest run of ASCII digits;
   * the `unwrap` of its `i64` parse panics when the value does not fit.
   */
  function ParseNumber(s: string): (r: Parse<Value>)
    ensures !r.NoParse? <==> |s| > 0 && IsDigit(s[0])
    ensures r.Parsed? ==> var n := Span(Digit, s);
                          r.value.Number? && r.value.n == DigitsValue(s[..n]) && r.rest == s[n..]
    ensures r.Panicked? ==> DigitsValue(s[..Span(Digit, s)]) > MAX
    ensures r.Parsed? ==> ProperSuffix(r.rest, s)
  {
    match Take1(Digit, s)
    case Parsed(first, s1) =>
      var (more, s2) := DigitRuns(s1);
      RunStep(Digit, s, first, s1, more, s2);
      var digits := first + more;
      if DigitsValue(digits) <= MAX then
        DropIsSuffix(s, |digits|);
        Parsed(Number(DigitsValue(digits)), s2)
      else Panicked
    case _ =>
      NoParse
  }

  /** `match_symbols`: `#t` and `#f` are the booleans, any other name an atom. */
  function MatchSymbols(name: string): Value
  {
    if name == "#t" then Boolean(true)
    else if name == "#f" then Boolean(false)
    else Atom(name)
  }

  /** `alt((alpha1, symbol))`. */
  function AtomStart(s: string): (r: Parse<string>)
    ensures !r.Panicked?
    ensures r.Parsed? <==> |s| > 0 && (IsAlpha(s[0]) || IsSymbolChar(s[0]))
    ensures r.Parsed? ==> r.value + r.rest == s && ProperSuffix(r.rest, s)
    ensures r.Parsed? ==> forall i | 0 <= i < |r.value| :: In(AtomChar, r.value[i])
  {
    Alt(Take1(Alpha, s), Take1(Symbol, s))
  }

  /** `alt((alphanumeric1, symbol))`. */
  function AtomRun(s: string): (r: Parse<string>)
    ensures !r.Panicked?
    ensures r.Parsed? <==> |s| > 0 && IsAtomChar(s[0])
    ensures r.Parsed? ==> r.value + r.rest == s && ProperSuffix(r.rest, s)
    ensures r.Parsed? ==> forall i | 0 <= i < |r.value| :: In(AtomChar, r.value[i])
  {
    Alt(Take1(Alphanumeric, s), Take1(Symbol, s))
  }

  /** `many0(alt((alphanumeric1, symbol)))`: runs of atom characters, concatenated, and the rest. */
  function AtomTail(s: string): (r: (string, string))
    ensures var n := Span(AtomChar, s); r == (s[..n], s[n..])
    decreases |s|
  {
    match AtomRun(s)
    case Parsed(run, s1) =>
      var (more, s2) := AtomTail(s1);
      RunStep(AtomChar, s, run, s1, more, s2);
      (run + more, s2)
    case _ =>
      ("", s)
  }

  /**
   * `parse_atom`: a letter run or a symbol run, then any further letters,
   * digits and symbols; the whole name goes through `match_symbols`.
   */
  function ParseAtom(s: string): (r: Parse<Value>)
    ensures !r.Panicked?
    ensures r.Parsed? <==> |s| > 0 && (IsAlpha(s[0]) || IsSymbolChar(s[0]))
    ensures r.Parsed? ==> var n := Span(AtomChar, s);
                          r.value == MatchSymbols(s[..n]) && r.rest == s[n..]
    ensures r.Parsed? ==> ProperSuffix(r.rest, s)
  {
    match AtomStart(s)
    case Parsed(first, s1) =>
      var (more, s2) := AtomTail(s1);
      RunStep(AtomChar, s, first, s1, more, s2);
      var name := first + more;
      assert ProperSuffix(s2, s) by {
        DropIsSuffix(s, |name|);
      }
      Parsed(MatchSymbols(name), s2)
    case _ =>
      NoParse
  }

  /** `dotted`: optional spaces, `.`, optional spaces. */
  function Dotted(s: string): (r: Parse<string>)
    ensures !r.Panicked?
    ensures r.Parsed? <==> Span(Space, s) < |s| && s[Span(Space, s)] == '.'
    ensures r.Parsed? ==>
              var s2 := s[Span(Space, s) + 1..];
              r.value == "." && r.rest == s2[Span(Space, s2)..]
    ensures r.Parsed? ==> ProperSuffix(r.rest, s)
  {
    var (_, s1) := Take0(Space, s);
    match Char('.', s1)
    case Parsed(_, s2) =>
      var (_, s3) := Take0(Space, s2);
      ProperSuffixTrans(s2, s1, s);
      ProperSuffixTrans(s3, s2, s);
      Parsed(".", s3)
    case _ =>
      NoParse
  }

  /** `parse_expr`: the first of atom, number, string, quote, dotted list and list that applies. */
  function ParseExpr(s: string): (r: Parse<Value>)
    ensures r.Parsed? ==> ProperSuffix(r.rest, s)
    decreases |s|, 1
  {
    Alt(ParseAtom(s),
    Alt(ParseNumber(s),
    Alt(ParseString(s),
    Alt(ParseQuoted(s),
    Alt(ParseDottedList(s),
        ParseList(s))))))
  }

  /** `parse_quoted`: `'` then an expression, wrapped in `Quote`. */
  function ParseQuoted(s: string): (r: Parse<Value>)
    ensures r.Parsed? ==> ProperSuffix(r.rest, s)
    decreases |s|, 0
  {
    match Char('\'', s)
    case Parsed(_, s1) =>
      (match ParseExpr(s1)
       case Parsed(e, s2) =>
         ProperSuffixTrans(s2, s1, s);
         Parsed(Quote(e), s2)
       case NoParse => NoParse
       case Panicked => Panicked)
    case _ => NoParse
  }

  /**
   * `parse_vector`, that is `separated_list0(multispace1, parse_expr)`:
   * possibly no element at all; after an element, a separator is consumed
   * only when an element follows it.
   */
  function ParseVector(s: string): (r: Parse<seq<Value>>)
    ensures !r.NoParse?
    ensures r.Parsed? ==> Suffix(r.rest, s)
    decreases |s|, 2
  {
    match ParseExpr(s)
    case Parsed(e, s1) =>
      var tail := VectorTail(s1);
      if tail.Parsed? then
        ProperSuffixTrans(tail.rest, s1, s);
        Parsed([e] + tail.value, tail.rest)
      else Panicked
    case NoParse => Parsed([], s)
    case Panicked => Panicked
  }

  /** The repetition of `separated_list0` after its first element. */
  function VectorTail(s: string): (r: Parse<seq<Value>>)
    ensures !r.NoParse?
    ensures r.Parsed? ==> Suffix(r.rest, s)
    decreases |s|, 3
  {
    match Take1(Multispace, s)
    case Parsed(_, s1) =>
      (match ParseExpr(s1)
       case Parsed(e, s2) =>
         ProperSuffixTrans(s2, s1, s);
         var tail := VectorTail(s2);
         if tail.Parsed? then
           SuffixTrans(tail.rest, s2, s);
           Parsed([e] + tail.value, tail.rest)
         else Panicked
       case NoParse => Parsed([], s)
       case Panicked => Panicked)
    case _ => Parsed([], s)
  }

  /** `parse_dotted_list`: `(`, a vector, `dotted`, an expression, `)`. */
  function ParseDottedList(s: string): (r: Parse<Value>)
    ensures r.Parsed? ==> ProperSuffix(r.rest, s)
    decreases |s|, 0
  {
    match Char('(', s)
    case Parsed(_, s1) =>
      (match ParseVector(s1)
       case Parsed(heads, s2) =>
         ProperSuffixTrans(s2, s1, s);
         var r := DottedTail(heads, s2);
         if r.Parsed? then
           ProperSuffixTrans(r.rest, s2, s);
           r
         else r
       case _ => Panicked)
    case _ => NoParse
  }

  /** The part of `parse_dotted_list` after its head items: `dotted`, an expression, `)`. */
  function DottedTail(heads: seq<Value>, s: string): (r: Parse<Value>)
    ensures r.Parsed? ==> ProperSuffix(r.rest, s)
    decreases |s|, 4
  {
    match Dotted(s)
    case Parsed(_, s1) =>
      (match ParseExpr(s1)
       case Parsed(tail, s2) =>
         (match Char(')', s2)
          case Parsed(_, s3) =>
            ProperSuffixTrans(s2, s1, s);
            ProperSuffixTrans(s3, s2, s);
            Parsed(DottedList(heads, tail), s3)
          case _ => NoParse)
       case NoParse => NoParse
       case Panicked => Panicked)
    case _ => NoParse
  }

  /** `parse_list`: `(`, a vector, `)`. */
  function ParseList(s: string): (r: Parse<Value>)
    ensures r.Parsed? ==> ProperSuffix(r.rest, s)
    decreases |s|, 0
  {
    match Char('(', s)
    case Parsed(_, s1) =>
      (match ParseVector(s1)
       case Parsed(items, s2) =>
         (match Char(')', s2)
          case Parsed(_, s3) =>
            ProperSuffixTrans(s2, s1, s);
            ProperSuffixTrans(s3, s2, s);
            Parsed(List(items), s3)
          case _ => NoParse)
       case _ => Panicked)
    case _ => NoParse
  }

  /** `parse_quoted2`: `'` then an expression, as the list `(quote e)`. */
  function ParseQuoted2(s: string): (r: Parse<Value>)
    ensures r.Parsed? ==> ProperSuffix(r.rest, s)
  {
    match Char('\'', s)
    case Parsed(_, s1) =>
      (match ParseExpr(s1)
       case Parsed(e, s2) =>
         ProperSuffixTrans(s2, s1, s);
         Parsed(List([Atom("quote"), e]), s2)
       case NoParse => NoParse
       case Panicked => Panicked)
    case _ => NoParse
  }
}
