/**
 * Reading back what `Display` prints (src/lispval.rs against src/parser.rs):
 * names, non-negative numbers, strings and lists of these, printed and read
 * again, come back unchanged; a quotation comes back when written with an
 * apostrophe, a dotted list when its parentheses are put back; booleans,
 * negative numbers and the other printed forms read as something else.
 */
module RoundTrip {
  import opened Int64
  import opened LispVal
  import opened Parser
  import opened ReaderFacts

  /** A name `parse_atom` reads as an atom: a letter or symbol, then letters, digits and symbols, and not a boolean literal. */
  predicate IsName(name: string)
  {
    && |name| > 0
    && (IsAlpha(name[0]) || IsSymbolChar(name[0]))
    && (forall i | 0 <= i < |name| :: IsAtomChar(name[i]))
    && name != "#t" && name != "#f"
  }

  /**
   * The values whose printed form `parse_expr` reads back as the same value:
   * names other than `#t` and `#f`, non-negative numbers, non-empty strings
   * without `"`, and lists of these. Booleans, quotations and dotted lists
   * print in forms the reader maps to other values.
   */
  predicate Readable(v: Value)
  {
    match v
    case Atom(name) => IsName(name)
    case Number(n) => n >= 0
    case String(s) => |s| > 0 && forall i | 0 <= i < |s| :: s[i] != '"'
    case List(vs) => forall i | 0 <= i < |vs| :: Readable(vs[i])
    case _ => false
  }

  /** Text after a token that does not extend it. */
  predicate Delimited(t: string)
  {
    t == [] || !IsAtomChar(t[0])
  }

  /** Text that ends a run of list items: a `)` or a ` .` separator. */
  predicate Closing(u: string)
  {
    |u| > 0 && (u[0] == ')' || (|u| > 1 && u[0] == ' ' && u[1] == '.'))
  }

  /** The renderings of `ys`, each preceded by a space. */
  function Sep(ys: seq<Value>): string
  {
    if ys == [] then "" else " " + Render(ys[0]) + Sep(ys[1..])
  }

  /** Helper: the joined renderings are the first rendering, then the others each after a space. */
  lemma {:induction false} JoinSep(xs: seq<Value>)
    requires |xs| > 0
    ensures Join(RenderEach(xs)) == Render(xs[0]) + Sep(xs[1..])
  {
    if |xs| > 1 {
      assert RenderEach(xs)[1..] == RenderEach(xs[1..]);
      JoinSep(xs[1..]);
      assert xs[1..][1..] == xs[2..];
    }
  }

  /** Helper: `JoinSep` with text after it, regrouped. */
  lemma JoinSplit(xs: seq<Value>, u: string)
    requires |xs| > 0
    ensures Join(RenderEach(xs)) + u == Render(xs[0]) + (Sep(xs[1..]) + u)
    ensures |Join(RenderEach(xs))| == |Render(xs[0])| + |Sep(xs[1..])|
  {
    JoinSep(xs);
    Assoc(Render(xs[0]), Sep(xs[1..]), u);
  }

  /** Helper: a non-empty sequence is its first item and the rest. */
  lemma HeadTail(xs: seq<Value>)
    requires |xs| > 0
    ensures [xs[0]] + xs[1..] == xs
  {
  }

  /** Helper: concatenation regrouped. */
  lemma Assoc(a: string, b: string, u: string)
    ensures (a + b) + u == a + (b + u) && |a + b| == |a| + |b|
  {
  }

  /** A readable value prints as something an expression starts with. */
  lemma RenderStart(v: Value)
    requires Readable(v)
    ensures |Render(v)| > 0 && StartsExpr(Render(v)[0]) && !IsMultispace(Render(v)[0])
  {
    match v
    case Number(n) =>
      DigitIsNotSymbol(NatDigits(n)[0]);
    case _ =>
  }

  /** A readable value, printed and followed by a delimiter, is read back. */
  lemma {:induction false} ReadValue(v: Value, t: string)
    requires Readable(v) && Delimited(t)
    ensures ParseExpr(Render(v) + t) == Parsed(v, t)
    decreases |Render(v)|, 0
  {
    match v
    case Atom(name) =>
      ReadName(name, t);
    case Number(n) =>
      ReadNumber(n, t);
    case String(str) =>
      ReadString(str, t);
    case List(vs) =>
      assert |Join(RenderEach(vs))| < |Render(v)|;
      ReadVector(vs, ")" + t);
      ReadList(vs, t);
  }

  /** A non-negative number, followed by a delimiter, is read back. */
  lemma ReadNumber(n: i64, t: string)
    requires n >= 0 && Delimited(t)
    ensures ParseExpr(Render(Number(n)) + t) == Parsed(Number(n), t)
  {
    var s := NatDigits(n) + t;
    assert Render(Number(n)) + t == s;
    assert s[0] == NatDigits(n)[0];
    ExprOfDigit(s);
    assert t == [] || !IsDigit(t[0]);
    var m: nat := n;
    assert InRange(n);
    assert m <= MAX;
    ReadNatDigits(m, t);
    assert ParseNumber(s) == Parsed(Number(n), t);
  }

  /** `parse_string` reads a non-empty run of characters other than `"` between quotes. */
  lemma ReadQuoted(str: string, t: string)
    requires |str| > 0 && forall i | 0 <= i < |str| :: str[i] != '"'
    ensures ParseString("\"" + str + "\"" + t) == Parsed(String(str), t)
  {
    var s := "\"" + str + "\"" + t;
    assert s[1..] == str + ("\"" + t);
    forall i | 0 <= i < |str| ensures In(NotQuote, s[1..][i]) {
      assert s[1..][i] == str[i];
    }
    SpanUnique(NotQuote, s[1..], |str|);
    assert s[1..|str| + 1] == str && s[|str| + 2..] == t;
  }

  /** A non-empty string without double quotes, printed in quotes, is read back. */
  lemma ReadString(str: string, t: string)
    requires |str| > 0 && forall i | 0 <= i < |str| :: str[i] != '"'
    ensures ParseExpr(Render(String(str)) + t) == Parsed(String(str), t)
  {
    var s := "\"" + str + "\"" + t;
    assert Render(String(str)) + t == s;
    ReadQuoted(str, t);
    ExprOfDoubleQuote(s);
  }

  /** Once the items are read up to `)`, the dotted branch fails and `parse_list` closes the list. */
  lemma ReadList(vs: seq<Value>, t: string)
    requires ParseVector(Join(RenderEach(vs)) + (")" + t)) == Parsed(vs, ")" + t)
    ensures ParseExpr(Render(List(vs)) + t) == Parsed(List(vs), t)
  {
    ParenSplit(Join(RenderEach(vs)), t);
    ListOfVector(vs, Render(List(vs)) + t, t);
  }

  /** Helper: the text after the opening parenthesis. */
  lemma ParenSplit(j: string, t: string)
    ensures var s := "(" + j + ")" + t; |s| > 0 && s[0] == '(' && s[1..] == j + (")" + t)
  {
  }

  /** Helper: items read up to `)` make `parse_expr` read a list. */
  lemma ListOfVector(vs: seq<Value>, s: string, t: string)
    requires |s| > 0 && s[0] == '('
    requires ParseVector(s[1..]) == Parsed(vs, ")" + t)
    ensures ParseExpr(s) == Parsed(List(vs), t)
  {
    DottedNeedsDot(vs, s, t);
    assert (")" + t)[1..] == t;
    ExprOfParen(s);
  }

  /** When the items are followed by `)`, `parse_dotted_list` fails recoverably. */
  lemma DottedNeedsDot(vs: seq<Value>, s: string, t: string)
    requires |s| > 0 && s[0] == '('
    requires ParseVector(s[1..]) == Parsed(vs, ")" + t)
    ensures ParseDottedList(s) == NoParse
  {
    NoDotBeforeParen(vs, ")" + t);
  }

  /** Helper: `)` is not the separator `dotted` needs. */
  lemma NoDotBeforeParen(vs: seq<Value>, u: string)
    requires |u| > 0 && u[0] == ')'
    ensures DottedTail(vs, u) == NoParse
  {
    SpanUnique(Space, u, 0);
    assert Take0(Space, u) == ([], u);
    assert Dotted(u) == NoParse;
  }

  /** A name, followed by a delimiter, is read as that atom. */
  lemma ReadName(name: string, t: string)
    requires IsName(name) && Delimited(t)
    ensures ParseExpr(name + t) == Parsed(Atom(name), t)
  {
    var s := name + t;
    ExprOfAtomStart(s);
    forall i | 0 <= i < |name| ensures In(AtomChar, s[i]) {
      assert s[i] == name[i];
    }
    SpanUnique(AtomChar, s, |name|);
    assert s[..|name|] == name && s[|name|..] == t;
  }

  /** One step of `separated_list0`'s first element. */
  lemma VectorStep(s: string, e: Value, r: string, es: seq<Value>, u: string)
    requires ParseExpr(s) == Parsed(e, r) && VectorTail(r) == Parsed(es, u)
    ensures ParseVector(s) == Parsed([e] + es, u)
  {
  }

  /** One step of `separated_list0` after its first element: one space, then an element. */
  lemma TailStep(s: string, e: Value, r: string, es: seq<Value>, u: string)
    requires |s| > 1 && s[0] == ' ' && !IsMultispace(s[1])
    requires ParseExpr(s[1..]) == Parsed(e, r) && VectorTail(r) == Parsed(es, u)
    ensures VectorTail(s) == Parsed([e] + es, u)
  {
    TakeOneSpace(s);
  }

  /** Helper: `multispace1` on a single space. */
  lemma TakeOneSpace(s: string)
    requires |s| > 1 && s[0] == ' ' && !IsMultispace(s[1])
    ensures Take1(Multispace, s) == Parsed(s[..1], s[1..])
  {
    SpanUnique(Multispace, s, 1);
  }

  /** Before `)` or ` .`, the repetition stops. */
  lemma TailStops(u: string)
    requires Closing(u)
    ensures VectorTail(u) == Parsed([], u)
  {
    if u[0] == ' ' {
      SpanUnique(Multispace, u, 1);
      assert Take1(Multispace, u) == Parsed(u[..1], u[1..]);
      PunctuationIsNotAtom('.');
      ExprOfOther(u[1..]);
    } else {
      PunctuationIsNotAtom(')');
      assert Take1(Multispace, u) == NoParse;
    }
  }

  /** What follows a printed item inside a list starts with a space or `)`. */
  lemma SepStart(ys: seq<Value>, u: string)
    requires Closing(u)
    ensures Delimited(Sep(ys) + u)
  {
    if ys != [] {
      SepSplit(ys, u);
    }
  }

  /** Helper: the text after a leading space. */
  lemma SpaceThen(a: string, b: string, u: string)
    ensures var s := " " + a + b + u; |s| > 0 && s[0] == ' ' && s[1..] == a + (b + u)
  {
  }

  /** Helper: the first space-separated rendering and what follows it. */
  lemma SepSplit(ys: seq<Value>, u: string)
    requires ys != []
    ensures var s := Sep(ys) + u; var rest := Sep(ys[1..]) + u;
            |s| > 0 && s[0] == ' ' && s[1..] == Render(ys[0]) + rest
  {
    var r := Render(ys[0]);
    assert Sep(ys) == " " + r + Sep(ys[1..]);
    SpaceThen(r, Sep(ys[1..]), u);
  }

  /** `parse_vector` reads the printed items of a list up to a closing `)` or ` .`. */
  lemma {:induction false} ReadVector(xs: seq<Value>, u: string)
    requires forall i | 0 <= i < |xs| :: Readable(xs[i])
    requires Closing(u)
    ensures ParseVector(Join(RenderEach(xs)) + u) == Parsed(xs, u)
    decreases |Join(RenderEach(xs))|, 2
  {
    if xs == [] {
      VectorEmpty(u);
    } else {
      ReadFirstItem(xs, u);
      ReadOtherItems(xs, u);
      VectorCons(xs, u);
    }
  }

  /** Helper: the first printed item of a list is read up to the space or closing text after it. */
  lemma {:induction false} ReadFirstItem(xs: seq<Value>, u: string)
    requires |xs| > 0 && (forall i | 0 <= i < |xs| :: Readable(xs[i])) && Closing(u)
    ensures ParseExpr(Render(xs[0]) + (Sep(xs[1..]) + u)) == Parsed(xs[0], Sep(xs[1..]) + u)
    decreases |Join(RenderEach(xs))|, 1
  {
    var rest := Sep(xs[1..]) + u;
    JoinSplit(xs, u);
    assert Delimited(rest) by {
      ReadableTail(xs);
      SepStart(xs[1..], u);
    }
    assert Readable(xs[0]);
    ReadValue(xs[0], rest);
  }

  /** Helper: the printed items after the first are read by the repetition. */
  lemma {:induction false} ReadOtherItems(xs: seq<Value>, u: string)
    requires |xs| > 0 && (forall i | 0 <= i < |xs| :: Readable(xs[i])) && Closing(u)
    ensures VectorTail(Sep(xs[1..]) + u) == Parsed(xs[1..], u)
    decreases |Join(RenderEach(xs))|, 1
  {
    assert |Sep(xs[1..])| < |Join(RenderEach(xs))| by {
      RenderStart(xs[0]);
      JoinSplit(xs, u);
    }
    ReadableTail(xs);
    ReadTail(xs[1..], u);
  }

  /** Helper: the items after the first of a readable sequence are readable. */
  lemma ReadableTail(xs: seq<Value>)
    requires |xs| > 0 && forall i | 0 <= i < |xs| :: Readable(xs[i])
    ensures forall i | 0 <= i < |xs[1..]| :: Readable(xs[1..][i])
  {
    forall i | 0 <= i < |xs[1..]| ensures Readable(xs[1..][i]) {
      assert xs[1..][i] == xs[i + 1];
    }
  }

  /** The first item read, then the rest of the items: the whole list of items is read. */
  lemma VectorCons(xs: seq<Value>, u: string)
    requires |xs| > 0
    requires ParseExpr(Render(xs[0]) + (Sep(xs[1..]) + u)) == Parsed(xs[0], Sep(xs[1..]) + u)
    requires VectorTail(Sep(xs[1..]) + u) == Parsed(xs[1..], u)
    ensures ParseVector(Join(RenderEach(xs)) + u) == Parsed(xs, u)
  {
    JoinSplit(xs, u);
    VectorStep(Join(RenderEach(xs)) + u, xs[0], Sep(xs[1..]) + u, xs[1..], u);
    HeadTail(xs);
  }

  /** Before `)` or ` .`, `separated_list0` reads no element at all. */
  lemma VectorEmpty(u: string)
    requires Closing(u)
    ensures ParseVector(Join(RenderEach([])) + u) == Parsed([], u)
  {
    assert Join(RenderEach([])) + u == u;
    PunctuationIsNotAtom(u[0]);
    ExprOfOther(u);
  }

  /** The rest of `separated_list0`: each further item is one space away. */
  lemma {:induction false} ReadTail(ys: seq<Value>, u: string)
    requires forall i | 0 <= i < |ys| :: Readable(ys[i])
    requires Closing(u)
    ensures VectorTail(Sep(ys) + u) == Parsed(ys, u)
    decreases |Sep(ys)|, 1
  {
    if ys == [] {
      assert Sep(ys) + u == u;
      TailStops(u);
    } else {
      var rest := Sep(ys[1..]) + u;
      SepSplit(ys, u);
      assert |Sep(ys)| == 1 + |Render(ys[0])| + |Sep(ys[1..])|;
      assert ParseExpr(Render(ys[0]) + rest) == Parsed(ys[0], rest) by {
        assert Readable(ys[0]);
        ReadableTail(ys);
        SepStart(ys[1..], u);
        ReadValue(ys[0], rest);
      }
      assert VectorTail(rest) == Parsed(ys[1..], u) by {
        RenderStart(ys[0]);
        ReadableTail(ys);
        ReadTail(ys[1..], u);
      }
      RenderStart(ys[0]);
      TailStep(Sep(ys) + u, ys[0], rest, ys[1..], u);
      HeadTail(ys);
    }
  }

  /**
   * The rendering of a dotted list lacks the parentheses the reader needs;
   * with them put back, it is read as the same dotted list.
   */
  lemma ReadDotted(vs: seq<Value>, v: Value, t: string)
    requires forall i | 0 <= i < |vs| :: Readable(vs[i])
    requires Readable(v)
    ensures ParseExpr("(" + Render(DottedList(vs, v)) + ")" + t) == Parsed(DottedList(vs, v), t)
  {
    var j := Join(RenderEach(vs));
    var r := Render(v);
    var u := " . " + r + ")" + t;
    var s := "(" + Render(DottedList(vs, v)) + ")" + t;
    assert |s| > 0 && s[0] == '(' && s[1..] == j + u by {
      DottedSplit(j, r, t);
    }
    ReadVector(vs, u);
    assert DottedTail(vs, u) == Parsed(DottedList(vs, v), t) by {
      DottedSplit(j, r, t);
      RenderStart(v);
      PunctuationIsNotAtom(')');
      ReadValue(v, ")" + t);
      DotStep(u);
      DottedTailStep(vs, u, v, t);
    }
    DottedOfVector(vs, s, j + u, u, v, t);
  }

  /** Helper: the parts of a parenthesised dotted-list rendering. */
  lemma DottedSplit(j: string, r: string, t: string)
    ensures var u := " . " + r + ")" + t; var s := "(" + (j + " . " + r) + ")" + t;
            |s| > 0 && s[0] == '(' && s[1..] == j + u &&
            |u| > 3 && u[0] == ' ' && u[1] == '.' && u[2] == ' ' && u[3..] == r + (")" + t) &&
            (|r| > 0 ==> u[3] == r[0])
  {
  }

  /** `dotted` on ` . ` followed by something other than a space. */
  lemma DotStep(u: string)
    requires |u| > 3 && u[0] == ' ' && u[1] == '.' && u[2] == ' ' && !IsSpace(u[3])
    ensures Dotted(u) == Parsed(".", u[3..])
  {
    SpanUnique(Space, u, 1);
    assert Take0(Space, u) == (u[..1], u[1..]);
    assert u[1..][1..] == u[2..];
    SpanUnique(Space, u[2..], 1);
    assert u[2..][1..] == u[3..];
  }

  /** Helper: `dotted`, the tail expression and `)` in turn. */
  lemma DottedTailStep(vs: seq<Value>, u: string, v: Value, t: string)
    requires Dotted(u).Parsed? && ParseExpr(Dotted(u).rest) == Parsed(v, ")" + t)
    ensures DottedTail(vs, u) == Parsed(DottedList(vs, v), t)
  {
    var s1 := Dotted(u).rest;
    assert Char(')', ")" + t) == Parsed(')', t) by {
      assert (")" + t)[1..] == t;
    }
    assert DottedTail(vs, u) == Parsed(DottedList(vs, v), t) by {
      assert Dotted(u) == Parsed(Dotted(u).value, s1);
      assert ParseExpr(s1) == Parsed(v, ")" + t);
    }
  }

  /** Helper: items and a dotted tail make `parse_expr` read a dotted list. */
  lemma DottedOfVector(vs: seq<Value>, s: string, w: string, u: string, v: Value, t: string)
    requires |s| > 0 && s[0] == '(' && s[1..] == w
    requires ParseVector(w) == Parsed(vs, u)
    requires DottedTail(vs, u) == Parsed(DottedList(vs, v), t)
    ensures ParseExpr(s) == Parsed(DottedList(vs, v), t)
  {
    ExprOfParen(s);
  }

  /**
   * An apostrophe before a printed readable value is read as its quotation,
   * by `parse_quoted` as `Quote(v)` and by `parse_quoted2` as `(quote v)`.
   */
  lemma ReadQuote(v: Value, t: string)
    requires Readable(v) && Delimited(t)
    ensures ParseQuoted("'" + Render(v) + t) == Parsed(Quote(v), t)
    ensures ParseQuoted2("'" + Render(v) + t) == Parsed(List([Atom("quote"), v]), t)
    ensures ParseExpr("'" + Render(v) + t) == Parsed(Quote(v), t)
  {
    var s := "'" + Render(v) + t;
    FirstChar('\'', Render(v), t);
    ReadValue(v, t);
    QuoteStep(s, v, t);
  }

  /** Helper: a character put in front of two strings. */
  lemma FirstChar(c: char, a: string, b: string)
    ensures var s := [c] + a + b; |s| > 0 && s[0] == c && s[1..] == a + b
  {
  }

  /** Helper: an apostrophe before an expression that reads as `e`. */
  lemma QuoteStep(s: string, e: Value, t: string)
    requires |s| > 0 && s[0] == '\'' && ParseExpr(s[1..]) == Parsed(e, t)
    ensures ParseQuoted(s) == Parsed(Quote(e), t)
    ensures ParseQuoted2(s) == Parsed(List([Atom("quote"), e]), t)
    ensures ParseExpr(s) == Parsed(Quote(e), t)
  {
    ExprOfApostrophe(s);
  }

  /** The booleans print as `true` and `false`, which read back as atoms. */
  lemma BooleanReadsAsAtom(b: bool, t: string)
    requires Delimited(t)
    ensures ParseExpr(Render(Boolean(b)) + t) == Parsed(Atom(if b then "true" else "false"), t)
  {
    BooleanNames();
    ReadName(Render(Boolean(b)), t);
  }

  /** Helper: `true` and `false` are names. */
  lemma BooleanNames()
    ensures IsName("true") && IsName("false")
  {
  }

  /** A negative number prints with a leading `-`, which makes it an atom to the reader. */
  lemma NegativeReadsAsAtom(n: i64, t: string)
    requires n < 0 && Delimited(t)
    ensures ParseExpr(Render(Number(n)) + t) == Parsed(Atom(Render(Number(n))), t)
  {
    var k: int := n;
    var name := "-" + NatDigits(-k);
    assert Render(Number(n)) == name;
    assert IsSymbolChar('-');
    forall i | 0 <= i < |name| ensures IsAtomChar(name[i]) {
      if i > 0 {
        assert name[i] == NatDigits(-k)[i - 1];
      }
    }
    ReadName(name, t);
  }

  /** A quotation prints as `quote` and its operand, which reads back as the atom `quote`. */
  lemma QuoteReadsAsAtom(q: Value, t: string)
    ensures ParseExpr(Render(Quote(q)) + t) == Parsed(Atom("quote"), " " + Render(q) + t)
  {
    var rest := " " + Render(q) + t;
    assert Render(Quote(q)) + t == "quote" + rest;
    assert Delimited(rest) by {
      assert rest[0] == ' ';
    }
    QuoteName();
    ReadName("quote", rest);
  }

  /** Helper: `quote` is a name. */
  lemma QuoteName()
    ensures IsName("quote")
  {
    assert IsAlpha('q');
    forall i | 0 <= i < |"quote"| ensures IsAtomChar("quote"[i]) {
      assert IsAlpha("quote"[i]);
    }
  }

  /** Without its parentheses, a printed dotted list reads back as its first item only. */
  lemma DottedRenderReadsAsHead(x: Value, v: Value, t: string)
    requires Readable(x)
    ensures ParseExpr(Render(DottedList([x], v)) + t) == Parsed(x, " . " + Render(v) + t)
  {
    var rest := " . " + Render(v) + t;
    assert RenderEach([x]) == [Render(x)];
    assert Render(DottedList([x], v)) + t == Render(x) + rest;
    ReadValue(x, rest);
  }
}
