/**
 * Properties of the reader in src/parser.rs: which branch of `parse_expr`
 * an input's first character selects, how numbers are read, and the
 * module's own unit tests.
 */
module ReaderFacts {
  import opened Int64
  import opened LispVal
  import opened Parser

  /** The characters an expression can start with. */
  predicate StartsExpr(c: char)
  {
    IsAlpha(c) || IsSymbolChar(c) || IsDigit(c) || c == '"' || c == '\'' || c == '('
  }

  lemma DigitIsNotSymbol(c: char)
    requires IsDigit(c)
    ensures !IsAlpha(c) && !IsSymbolChar(c)
  {
  }

  /** Quotes, parentheses, the dot and white space are neither letters, digits nor symbols. */
  lemma PunctuationIsNotAtom(c: char)
    requires c == '"' || c == '\'' || c == '(' || c == ')' || c == '.' || IsMultispace(c)
    ensures !IsAlpha(c) && !IsSymbolChar(c) && !IsDigit(c)
  {
  }

  /** A letter or symbol character selects `parse_atom`, which then succeeds. */
  lemma ExprOfAtomStart(s: string)
    requires |s| > 0 && (IsAlpha(s[0]) || IsSymbolChar(s[0]))
    ensures ParseExpr(s) == ParseAtom(s) && ParseAtom(s).Parsed?
  {
  }

  /** A digit selects `parse_number`, which reads a number or panics. */
  lemma ExprOfDigit(s: string)
    requires |s| > 0 && IsDigit(s[0])
    ensures ParseExpr(s) == ParseNumber(s) && !ParseNumber(s).NoParse?
  {
    DigitIsNotSymbol(s[0]);
    assert ParseAtom(s) == NoParse;
  }

  /** A double quote selects `parse_string`. */
  lemma ExprOfDoubleQuote(s: string)
    requires |s| > 0 && s[0] == '"'
    ensures ParseExpr(s) == ParseString(s)
  {
    PunctuationIsNotAtom(s[0]);
    assert ParseAtom(s) == NoParse && ParseNumber(s) == NoParse;
    assert ParseQuoted(s) == NoParse && ParseDottedList(s) == NoParse && ParseList(s) == NoParse;
  }

  /** An apostrophe selects `parse_quoted`. */
  lemma ExprOfApostrophe(s: string)
    requires |s| > 0 && s[0] == '\''
    ensures ParseExpr(s) == ParseQuoted(s)
  {
    PunctuationIsNotAtom(s[0]);
    assert ParseAtom(s) == NoParse && ParseNumber(s) == NoParse && ParseString(s) == NoParse;
    assert ParseDottedList(s) == NoParse && ParseList(s) == NoParse;
  }

  /** An opening parenthesis tries a dotted list first, then a list. */
  lemma ExprOfParen(s: string)
    requires |s| > 0 && s[0] == '('
    ensures ParseExpr(s) == Alt(ParseDottedList(s), ParseList(s))
  {
    PunctuationIsNotAtom(s[0]);
    assert ParseAtom(s) == NoParse && ParseNumber(s) == NoParse && ParseString(s) == NoParse;
    assert ParseQuoted(s) == NoParse;
  }

  /** Any other first character, white space and `)` among them, is not an expression. */
  lemma ExprOfOther(s: string)
    requires |s| == 0 || !StartsExpr(s[0])
    ensures ParseExpr(s) == NoParse
  {
    assert ParseAtom(s) == NoParse && ParseNumber(s) == NoParse && ParseString(s) == NoParse;
    assert ParseQuoted(s) == NoParse && ParseDottedList(s) == NoParse && ParseList(s) == NoParse;
  }

  /** White space right after `(` is not skipped by `parse_list`. */
  lemma ListRejectsSpaceAfterParen(s: string)
    requires |s| > 1 && s[0] == '(' && IsMultispace(s[1])
    ensures ParseList(s) == NoParse
  {
    ExprOfOther(s[1..]);
    assert ParseVector(s[1..]) == Parsed([], s[1..]);
  }

  /**
   * The digits of `n` followed by a non-digit are read back as `n` when it
   * fits an `i64`; past `i64::MAX` the `unwrap` panics.
   */
  lemma ReadNatDigits(n: nat, t: string)
    requires t == [] || !IsDigit(t[0])
    ensures n <= MAX ==> ParseNumber(NatDigits(n) + t) == Parsed(Number(n), t)
    ensures n > MAX ==> ParseNumber(NatDigits(n) + t) == Panicked
  {
    var ds := NatDigits(n);
    var s := ds + t;
    forall i | 0 <= i < |ds| ensures In(Digit, s[i]) {
      assert s[i] == ds[i];
    }
    SpanUnique(Digit, s, |ds|);
    assert s[..|ds|] == ds && s[|ds|..] == t;
    DigitsValueOfNatDigits(n);
  }

  /** `string_parser_test`: the quotes are stripped. */
  lemma StringTest()
    ensures ParseString("\"hello\"") == Parsed(String("hello"), "")
  {
    var s := "\"hello\"";
    assert s[1..] == "hello\"";
    SpanUnique(NotQuote, s[1..], 5);
    assert s[1..6] == "hello" && s[7..] == "";
  }

  /** `is_not` needs one character, so the empty string literal is not read. */
  lemma EmptyStringRejected()
    ensures ParseString("\"\"") == NoParse
  {
    var s := "\"\"";
    assert s[1..] == "\"";
    SpanUnique(NotQuote, s[1..], 0);
  }

  /** `number_parser_test`. */
  lemma NumberTest()
    ensures ParseNumber("j5") == NoParse
    ensures ParseNumber("jlsdf") == NoParse
    ensures ParseNumber("23") == Parsed(Number(23), "")
  {
    assert NatDigits(23) == "23";
    ReadNatDigits(23, "");
    assert "23" + "" == "23";
  }

  /** `atom_parser_test`. */
  lemma AtomTest()
    ensures ParseAtom("$foo") == Parsed(Atom("$foo"), "")
    ensures ParseAtom("#f") == Parsed(Boolean(false), "")
  {
    AtomTestName();
    AtomTestBoolean();
  }

  /** Helper: the first case of `atom_parser_test`. */
  lemma AtomTestName()
    ensures ParseAtom("$foo") == Parsed(Atom("$foo"), "")
  {
    assert IsSymbolChar('$');
    SpanUnique(AtomChar, "$foo", 4);
    assert "$foo"[..4] == "$foo";
  }

  /** Helper: the second case of `atom_parser_test`. */
  lemma AtomTestBoolean()
    ensures ParseAtom("#f") == Parsed(Boolean(false), "")
  {
    assert IsSymbolChar('#');
    SpanUnique(AtomChar, "#f", 2);
    assert "#f"[..2] == "#f";
  }

  /** `quoted_parser_test` and `quoted_parser_test2`. */
  lemma QuotedTests()
    ensures ParseQuoted("'52") == Parsed(Quote(Number(52)), "")
    ensures ParseQuoted2("'52") == Parsed(List([Atom("quote"), Number(52)]), "")
  {
    assert "'52"[1..] == "52";
    assert NatDigits(52) == "52";
    ReadNatDigits(52, "");
    assert "52" + "" == "52";
    ExprOfDigit("52");
  }

  /** The two quote readers accept the same inputs and differ only in the shape of the result. */
  lemma QuotedForms(s: string)
    ensures ParseQuoted(s).Parsed? <==> ParseQuoted2(s).Parsed?
    ensures ParseQuoted(s).Parsed? ==>
              ParseQuoted(s).value.Quote? &&
              ParseQuoted2(s) == Parsed(List([Atom("quote"), ParseQuoted(s).value.quoted]), ParseQuoted(s).rest)
  {
  }

  /** A run of digits beyond the `i64` range makes `parse_number` panic. */
  lemma OverflowPanics()
    ensures ParseExpr(NatDigits(MAX + 1)) == Panicked
  {
    ReadNatDigits(MAX + 1, "");
    assert NatDigits(MAX + 1) + "" == NatDigits(MAX + 1);
    ExprOfDigit(NatDigits(MAX + 1));
  }
}
