/**
 * The layouts src/parser.rs reads beyond the single spaces `Display` prints.
 * List items may be separated by any run of `multispace1` characters (space,
 * tab, carriage return, line feed). The `.` of a dotted list may have any run
 * of `space0` characters (space, tab), possibly none, on either side. White
 * space before the closing `)` and a line break before the `.` are not read.
 */
module Layout {
  import opened LispVal
  import opened Parser
  import opened ReaderFacts
  import opened RoundTrip

  /** A non-empty run of `multispace1` characters. */
  predicate IsWhitespace(w: string)
  {
    |w| > 0 && forall i | 0 <= i < |w| :: IsMultispace(w[i])
  }

  /** A possibly empty run of `space0` characters. */
  predicate IsBlank(w: string)
  {
    forall i | 0 <= i < |w| :: IsSpace(w[i])
  }

  /** Each separator is a run of white space. */
  predicate AllWhitespace(ws: seq<string>)
  {
    forall i | 0 <= i < |ws| :: IsWhitespace(ws[i])
  }

  /** Every item is one whose printed form reads back as itself. */
  predicate AllReadable(xs: seq<Value>)
  {
    forall i | 0 <= i < |xs| :: Readable(xs[i])
  }

  /** The renderings of `ys`, each preceded by its own separator. */
  function Spaced(ys: seq<Value>, ws: seq<string>): string
    requires |ws| == |ys|
  {
    if ys == [] then "" else ws[0] + Render(ys[0]) + Spaced(ys[1..], ws[1..])
  }

  /** Text that ends a run of items: white space, possibly none, then `)` or `.`. */
  predicate EndsItems(u: string)
  {
    var n := Span(Multispace, u);
    n < |u| && (u[n] == ')' || u[n] == '.')
  }

  /** Helper: an expression starts with a character that is not white space. */
  lemma ExprStarts(s: string)
    ensures ParseExpr(s).Parsed? ==> |s| > 0 && !IsMultispace(s[0])
  {
    if s == [] || !StartsExpr(s[0]) {
      ExprOfOther(s);
    } else if IsMultispace(s[0]) {
      PunctuationIsNotAtom(s[0]);
    }
  }

  /** Helper: `multispace1` takes a whole run of white space and nothing after it. */
  lemma TakeWhitespace(w: string, s: string)
    requires IsWhitespace(w) && (s == [] || !IsMultispace(s[0]))
    ensures Take1(Multispace, w + s) == Parsed(w, s)
  {
    var ws := w + s;
    forall i | 0 <= i < |w| ensures In(Multispace, ws[i]) {
      assert ws[i] == w[i];
    }
    if |w| < |ws| {
      assert ws[|w|] == s[0];
    }
    SpanUnique(Multispace, ws, |w|);
    assert ws[..|w|] == w && ws[|w|..] == s;
  }

  /** Any run of white space before an item separates it from the one before. */
  lemma SeparatorStep(w: string, s: string, e: Value, r: string, es: seq<Value>, u: string)
    requires IsWhitespace(w)
    requires ParseExpr(s) == Parsed(e, r) && VectorTail(r) == Parsed(es, u)
    ensures VectorTail(w + s) == Parsed([e] + es, u)
  {
    ExprStarts(s);
    TakeWhitespace(w, s);
  }

  /** Before white space and `)` or `.`, the repetition reads no further item, and no token runs on. */
  lemma ItemsStop(u: string)
    requires EndsItems(u)
    ensures VectorTail(u) == Parsed([], u) && Delimited(u)
  {
    var n := Span(Multispace, u);
    PunctuationIsNotAtom(u[n]);
    PunctuationIsNotAtom(u[0]);
    if n > 0 {
      assert Take1(Multispace, u) == Parsed(u[..n], u[n..]);
      ExprOfOther(u[n..]);
    }
  }

  /** Helper: the text after an item starts with white space or ends the items. */
  lemma SpacedStart(ys: seq<Value>, ws: seq<string>, u: string)
    requires |ws| == |ys| && AllWhitespace(ws) && EndsItems(u)
    ensures Delimited(Spaced(ys, ws) + u)
  {
    if ys == [] {
      assert Spaced(ys, ws) + u == u;
      ItemsStop(u);
    } else {
      assert IsWhitespace(ws[0]);
      assert (Spaced(ys, ws) + u)[0] == ws[0][0];
      PunctuationIsNotAtom(ws[0][0]);
    }
  }

  /** Helper: the separators and items after the first. */
  lemma SpacedTails(ys: seq<Value>, ws: seq<string>)
    requires |ys| > 0 && |ws| == |ys| && AllWhitespace(ws) && AllReadable(ys)
    ensures AllWhitespace(ws[1..]) && AllReadable(ys[1..])
    ensures IsWhitespace(ws[0]) && Readable(ys[0])
  {
    forall i | 0 <= i < |ws[1..]| ensures IsWhitespace(ws[1..][i]) {
      assert ws[1..][i] == ws[i + 1];
    }
    forall i | 0 <= i < |ys[1..]| ensures Readable(ys[1..][i]) {
      assert ys[1..][i] == ys[i + 1];
    }
  }

  /** The repetition of `separated_list0` reads each item after its run of white space. */
  lemma {:induction false} ReadSpacedTail(ys: seq<Value>, ws: seq<string>, u: string)
    requires |ws| == |ys| && AllWhitespace(ws) && AllReadable(ys) && EndsItems(u)
    ensures VectorTail(Spaced(ys, ws) + u) == Parsed(ys, u)
    decreases |ys|
  {
    if ys == [] {
      assert Spaced(ys, ws) + u == u;
      ItemsStop(u);
    } else {
      var rest := Spaced(ys[1..], ws[1..]) + u;
      SpacedTails(ys, ws);
      assert Spaced(ys, ws) + u == ws[0] + (Render(ys[0]) + rest);
      SpacedStart(ys[1..], ws[1..], u);
      ReadValue(ys[0], rest);
      ReadSpacedTail(ys[1..], ws[1..], u);
      SeparatorStep(ws[0], Render(ys[0]) + rest, ys[0], rest, ys[1..], u);
      HeadTail(ys);
    }
  }

  /**
   * `parse_vector` reads printed items separated by any runs of white space,
   * up to white space and a `)` or `.`, which it leaves unread.
   */
  lemma ReadSpacedVector(xs: seq<Value>, ws: seq<string>, u: string)
    requires |xs| > 0 && |ws| == |xs| - 1 && AllWhitespace(ws) && AllReadable(xs) && EndsItems(u)
    ensures ParseVector(Render(xs[0]) + Spaced(xs[1..], ws) + u) == Parsed(xs, u)
  {
    var rest := Spaced(xs[1..], ws) + u;
    Assoc(Render(xs[0]), Spaced(xs[1..], ws), u);
    assert Readable(xs[0]);
    assert AllReadable(xs[1..]) by {
      forall i | 0 <= i < |xs[1..]| ensures Readable(xs[1..][i]) {
        assert xs[1..][i] == xs[i + 1];
      }
    }
    SpacedStart(xs[1..], ws, u);
    ReadValue(xs[0], rest);
    ReadSpacedTail(xs[1..], ws, u);
    VectorStep(Render(xs[0]) + rest, xs[0], rest, xs[1..], u);
    HeadTail(xs);
  }

  /** A list whose printed items are separated by any runs of white space is read as that list. */
  lemma ReadSpacedList(xs: seq<Value>, ws: seq<string>, t: string)
    requires |xs| > 0 && |ws| == |xs| - 1 && AllWhitespace(ws) && AllReadable(xs)
    ensures ParseExpr("(" + (Render(xs[0]) + Spaced(xs[1..], ws)) + ")" + t) == Parsed(List(xs), t)
  {
    var j := Render(xs[0]) + Spaced(xs[1..], ws);
    ParenSplit(j, t);
    ParenEndsItems(t);
    ReadSpacedVector(xs, ws, ")" + t);
    ListOfVector(xs, "(" + j + ")" + t, t);
  }

  /** Helper: `)` ends the items. */
  lemma ParenEndsItems(t: string)
    ensures EndsItems(")" + t)
  {
    SpanUnique(Multispace, ")" + t, 0);
  }

  /** `dotted` takes spaces and tabs, `.`, and spaces and tabs, and leaves what follows. */
  lemma DotLayout(a: string, b: string, r: string)
    requires IsBlank(a) && IsBlank(b) && (r == [] || !IsSpace(r[0]))
    ensures Dotted(a + "." + b + r) == Parsed(".", r)
  {
    var s := a + "." + b + r;
    forall i | 0 <= i < |a| ensures In(Space, s[i]) {
      assert s[i] == a[i];
    }
    assert s[|a|] == '.';
    SpanUnique(Space, s, |a|);
    var s2 := b + r;
    assert s[|a| + 1..] == s2;
    forall i | 0 <= i < |b| ensures In(Space, s2[i]) {
      assert s2[i] == b[i];
    }
    if |b| < |s2| {
      assert s2[|b|] == r[0];
    }
    SpanUnique(Space, s2, |b|);
    assert s2[|b|..] == r;
  }

  /** A line break is not among `space0`'s characters, so `dotted` fails before it. */
  lemma DotAfterLineBreak(a: string, c: char, r: string)
    requires IsBlank(a) && (c == '\n' || c == '\r')
    ensures Dotted(a + [c] + r) == NoParse
  {
    var s := a + [c] + r;
    forall i | 0 <= i < |a| ensures In(Space, s[i]) {
      assert s[i] == a[i];
    }
    assert s[|a|] == c;
    SpanUnique(Space, s, |a|);
  }

  /** Helper: white space, possibly none, then `.` ends the items. */
  lemma BlankThenDot(a: string, b: string, r: string)
    requires IsBlank(a)
    ensures EndsItems(a + "." + b + r)
  {
    var u := a + "." + b + r;
    forall i | 0 <= i < |a| ensures In(Multispace, u[i]) {
      assert u[i] == a[i];
    }
    assert u[|a|] == '.';
    SpanUnique(Multispace, u, |a|);
  }

  /** Helper: the text after the opening parenthesis. */
  lemma OpenSplit(j: string, u: string)
    ensures var s := "(" + j + u; |s| > 0 && s[0] == '(' && s[1..] == j + u
  {
  }

  /** Helper: a dotted tail with spaces and tabs around its `.` is read. */
  lemma ReadDottedTail(xs: seq<Value>, a: string, b: string, v: Value, t: string)
    requires IsBlank(a) && IsBlank(b) && Readable(v)
    ensures DottedTail(xs, a + "." + b + (Render(v) + (")" + t))) == Parsed(DottedList(xs, v), t)
  {
    var r := Render(v) + (")" + t);
    RenderStart(v);
    assert r[0] == Render(v)[0];
    DotLayout(a, b, r);
    PunctuationIsNotAtom(')');
    ReadValue(v, ")" + t);
    DottedTailStep(xs, a + "." + b + r, v, t);
  }

  /**
   * A dotted list written with any runs of white space between its head
   * items and any spaces and tabs around its `.` is read as that dotted list.
   */
  lemma ReadSpacedDotted(xs: seq<Value>, ws: seq<string>, a: string, b: string, v: Value, t: string)
    requires |xs| > 0 && |ws| == |xs| - 1 && AllWhitespace(ws) && AllReadable(xs) && Readable(v)
    requires IsBlank(a) && IsBlank(b)
    ensures ParseExpr("(" + (Render(xs[0]) + Spaced(xs[1..], ws)) + (a + "." + b + (Render(v) + (")" + t))))
            == Parsed(DottedList(xs, v), t)
  {
    var j := Render(xs[0]) + Spaced(xs[1..], ws);
    var r := Render(v) + (")" + t);
    var u := a + "." + b + r;
    OpenSplit(j, u);
    BlankThenDot(a, b, r);
    ReadSpacedVector(xs, ws, u);
    ReadDottedTail(xs, a, b, v, t);
    DottedOfVector(xs, "(" + j + u, j + u, u, v, t);
  }

  /** Helper: items followed by neither `)` nor a `dotted` separator make no list. */
  lemma ItemsWithoutClose(xs: seq<Value>, s: string, u: string)
    requires |s| > 0 && s[0] == '(' && ParseVector(s[1..]) == Parsed(xs, u)
    requires (u == [] || u[0] != ')') && Dotted(u) == NoParse
    ensures ParseExpr(s) == NoParse
  {
    ExprOfParen(s);
  }

  /** Helper: a run stops at the first character outside its class. */
  lemma SpanStops(k: Class, s: string, m: nat)
    requires m < |s| && !In(k, s[m])
    ensures Span(k, s) <= m
  {
  }

  /** Helper: white space before `)` ends the items, is not `)` and is no `dotted` separator. */
  lemma SpaceBeforeParen(w: string, t: string)
    requires IsWhitespace(w)
    ensures var u := w + (")" + t); EndsItems(u) && u[0] != ')' && Dotted(u) == NoParse
  {
    var u := w + (")" + t);
    forall i | 0 <= i < |w| ensures In(Multispace, u[i]) {
      assert u[i] == w[i];
    }
    assert u[|w|] == ')';
    SpanUnique(Multispace, u, |w|);
    var n := Span(Space, u);
    SpanStops(Space, u, |w|);
    assert u[n] != '.' by {
      if n < |w| {
        assert u[n] == w[n];
      }
    }
    assert u[0] == w[0];
  }

  /** White space before the closing `)` is not read: `separated_list0` leaves it, and `)` must follow at once. */
  lemma ListRejectsSpaceBeforeParen(xs: seq<Value>, ws: seq<string>, w: string, t: string)
    requires |xs| > 0 && |ws| == |xs| - 1 && AllWhitespace(ws) && AllReadable(xs) && IsWhitespace(w)
    ensures ParseExpr("(" + (Render(xs[0]) + Spaced(xs[1..], ws)) + (w + (")" + t))) == NoParse
  {
    var j := Render(xs[0]) + Spaced(xs[1..], ws);
    var u := w + (")" + t);
    OpenSplit(j, u);
    SpaceBeforeParen(w, t);
    ReadSpacedVector(xs, ws, u);
    ItemsWithoutClose(xs, "(" + j + u, u);
  }

  /** Helper: spaces, a line break and `.` end the items, are not `)` and are no `dotted` separator. */
  lemma LineBreakBeforeDot(a: string, c: char, r: string)
    requires IsBlank(a) && (c == '\n' || c == '\r') && |r| > 0 && r[0] == '.'
    ensures var u := a + [c] + r; EndsItems(u) && u[0] != ')' && Dotted(u) == NoParse
  {
    var u := a + [c] + r;
    var m := |a| + 1;
    forall i | 0 <= i < m ensures In(Multispace, u[i]) {
      if i < |a| {
        assert u[i] == a[i];
      }
    }
    assert u[m] == '.';
    SpanUnique(Multispace, u, m);
    DotAfterLineBreak(a, c, r);
    assert u[0] != ')' by {
      if |a| > 0 {
        assert u[0] == a[0];
      }
    }
  }

  /** A line break before the `.` of a dotted list leaves neither a dotted list nor a list. */
  lemma DottedRejectsLineBreak(xs: seq<Value>, ws: seq<string>, a: string, c: char, r: string)
    requires |xs| > 0 && |ws| == |xs| - 1 && AllWhitespace(ws) && AllReadable(xs)
    requires IsBlank(a) && (c == '\n' || c == '\r')
    requires |r| > 0 && r[0] == '.'
    ensures ParseExpr("(" + (Render(xs[0]) + Spaced(xs[1..], ws)) + (a + [c] + r)) == NoParse
  {
    var j := Render(xs[0]) + Spaced(xs[1..], ws);
    var u := a + [c] + r;
    OpenSplit(j, u);
    LineBreakBeforeDot(a, c, r);
    ReadSpacedVector(xs, ws, u);
    ItemsWithoutClose(xs, "(" + j + u, u);
  }
}
