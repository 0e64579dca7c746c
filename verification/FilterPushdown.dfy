/** Pushing Spark filters down: the translated ones joined with AND, the rest left to Spark. */
module FilterPushdown {
  import opened Options
  import opened SqlText
  import opened FilterExpr
  import opened FilterParser
  import opened SparkFilter
  import Utf8

  lemma ProperBoth(a: seq<Token>, b: seq<Token>)
    requires AllProper(a) && AllProper(b)
    ensures AllProper(a + b)
  {
    hide Proper;
  }

  lemma {:induction false} ShowIsProper(e: Expr)
    requires Writable(e)
    ensures AllProper(Show(e))
  {
    hide Proper, Literal, ListTokens, OpText, AllProper;
    Keywords();
    match e
    case Compare(name, op, v) => CompareIsProper(name, op, v);
    case IsNull(name) => NullIsProper(name);
    case IsNotNull(name) => NullIsProper(name);
    case InList(name, values) =>
      NullIsProper(name);
      ListIsProper(values);
      ProperBoth([Name(name), Word("IN"), Sym("(")], ListTokens(values));
      ProperBoth([Name(name), Word("IN"), Sym("(")] + ListTokens(values), [Sym(")")]);
    case Like(name, pattern, negated) => LikeIsProper(name, pattern, negated);
    case Not(c) =>
      ShowIsProper(c);
      ProperBoth([Word("NOT"), Sym("(")], Show(c));
      ProperBoth([Word("NOT"), Sym("(")] + Show(c), [Sym(")")]);
    case And(l, r) =>
      ShowIsProper(l);
      ShowIsProper(r);
      JoinedIsProper(Show(l), Word("AND"), Show(r));
    case Or(l, r) =>
      ShowIsProper(l);
      ShowIsProper(r);
      JoinedIsProper(Show(l), Word("OR"), Show(r));
  }

  lemma CompareIsProper(name: string, op: Op, v: Value)
    requires HasLiteral(v)
    ensures AllProper([Name(name), Sym(OpText(op)), Literal(v)])
  {
    Keywords();
    hide Proper, OpText, Literal;
    OpRoundTrip(op);
    LiteralRoundTrip(v);
  }

  lemma NullIsProper(name: string)
    ensures AllProper([Name(name), Word("IS"), Word("NULL")]) && AllProper([Name(name), Word("IS"), Word("NOT"), Word("NULL")])
    ensures AllProper([Name(name), Word("IN"), Sym("(")])
  {
    Keywords();
    hide Proper;
  }

  lemma LikeIsProper(name: string, pattern: string, negated: bool)
    ensures AllProper(Show(Like(name, pattern, negated)))
  {
    Keywords();
    hide Proper;
  }

  lemma JoinedIsProper(l: seq<Token>, word: Token, r: seq<Token>)
    requires AllProper(l) && AllProper([word]) && AllProper(r)
    ensures AllProper([Sym("(")] + l + [word] + r + [Sym(")")])
  {
    Keywords();
    hide Proper, AllProper;
    ProperBoth([Sym("(")], l);
    ProperBoth([Sym("(")] + l, [word]);
    ProperBoth([Sym("(")] + l + [word], r);
    ProperBoth([Sym("(")] + l + [word] + r, [Sym(")")]);
  }

  lemma Keywords()
    ensures AllProper([Word("NOT"), Sym("(")]) && AllProper([Sym("(")]) && AllProper([Sym(")")])
    ensures AllProper([Word("AND")]) && AllProper([Word("OR")])
    ensures Proper(Word("NOT")) && Proper(Word("AND")) && Proper(Word("OR")) && Proper(Word("IS")) && Proper(Word("NULL"))
    ensures Proper(Word("IN")) && Proper(Word("LIKE")) && Proper(Sym("(")) && Proper(Sym(")")) && Proper(Sym(","))
    ensures (forall s :: Proper(Name(s))) && (forall s :: Proper(Str(s))) && (forall y :: y in SYMBOLS ==> Proper(Sym(y)))
  {
  }

  lemma {:induction false} ListIsProper(values: seq<Value>)
    requires forall i :: 0 <= i < |values| ==> HasLiteral(values[i])
    ensures AllProper(ListTokens(values))
  {
    if values != [] {
      LiteralRoundTrip(values[0]);
      ListIsProper(values[1..]);
    }
  }

  /** The engine's reading of a filter's text. */
  lemma TextMeans(f: Filter, schema: seq<string>)
    requires Translate(f, schema).Some?
    ensures Meant(Translate(f, schema).value) == Some(ExprOf(f))
  {
    hide Translate, ExprOf, Show, Written, ParseNot, Lex, Writable;
    var e := ExprOf(f);
    TranslatedText(f, schema);
    ShowIsProper(e);
    LexWritten(Show(e));
    ShowRoundTrip(e, []);
    assert Show(e) + [] == Show(e);
    ParseOrOfOne(Show(e), e, []);
  }

  /** Whatever text a filter is translated to, the engine's reading of it is as true, false or unknown as the filter, when
      its literals of bytes are valid UTF-8. */
  lemma FilterMeaning(f: Filter, schema: seq<string>, row: Row)
    requires Translate(f, schema).Some? && Typed(f, row) && Utf8Literals(f)
    ensures Meant(Translate(f, schema).value).Some?
    ensures Eval(Meant(Translate(f, schema).value).value, row) == SparkEval(f, row)
  {
    hide Translate, ExprOf, Meant, SparkEval, Eval, Typed, Utf8Literals;
    TextMeans(f, schema);
    TranslatedMeaning(f, schema, row);
  }

  /** For a test with literals that is the exact condition: without it the pushed text is wrong about some row. */
  lemma FilterMeaningIff(f: Filter, schema: seq<string>)
    requires Translate(f, schema).Some? && IsLiteralTest(f)
    ensures (forall row: Row :: Typed(f, row) ==> Pushed(Translate(f, schema), row) == SparkEval(f, row)) <==> Utf8Literals(f)
  {
    hide Translate, ExprOf, Meant, SparkEval, Eval, Typed, Utf8Literals;
    TextMeans(f, schema);
    TestKeptIff(f, schema);
    forall row: Row ensures Pushed(Translate(f, schema), row) == Eval(ExprOf(f), row) {}
  }

  // ---- Several filters ----

  function All(filters: seq<Filter>, row: Row): Truth {
    if filters == [] then True else Both(SparkEval(filters[0], row), All(filters[1..], row))
  }

  /** What the pushed filter text does to a row; no text keeps every row. */
  function Pushed(text: Option<string>, row: Row): Truth {
    if text.None? then True
    else if Meant(text.value).Some? then Eval(Meant(text.value).value, row)
    else Unknown
  }

  /** The parts joined with " AND ". */
  function Join(parts: seq<string>): string {
    if parts == [] then ""
    else if |parts| == 1 then parts[0]
    else Join(parts[..|parts| - 1]) + " AND " + parts[|parts| - 1]
  }

  /** The tokens of the joined text: operands with AND between them. */
  function JoinTokens(es: seq<Expr>): seq<Token>
    requires es != []
  {
    if |es| == 1 then Show(es[0])
    else JoinTokens(es[..|es| - 1]) + ([Word("AND")] + Show(es[|es| - 1]))
  }

  function AndAll(es: seq<Expr>): Expr
    requires es != []
  {
    if |es| == 1 then es[0] else Expr.And(AndAll(es[..|es| - 1]), es[|es| - 1])
  }

  predicate AllWritable(es: seq<Expr>) {
    forall i :: 0 <= i < |es| ==> Writable(es[i])
  }

  /** The parts before the last, then the last: AND groups to the left. */
  lemma {:induction false} ParseJoined(es: seq<Expr>, rest: seq<Token>)
    requires es != [] && AllWritable(es)
    ensures ParseAnd(JoinTokens(es) + rest) == MoreAnd(AndAll(es), rest)
  {
    hide ParseNot, Show, Writable, MoreAnd;
    var last := es[|es| - 1];
    if |es| == 1 {
      ShowRoundTrip(last, rest);
    } else {
      var front := es[..|es| - 1];
      var more := [Word("AND")] + (Show(last) + rest);
      ParseJoined(front, more);
      ShowRoundTrip(last, rest);
      MoreAndOnce(AndAll(front), Show(last) + rest, last, rest);
      assert JoinTokens(es) + rest == JoinTokens(front) + more;
    }
  }

  lemma MoreAndOnce(l: Expr, ts: seq<Token>, e: Expr, rest: seq<Token>)
    requires ParseNot(ts) == Parsed(e, rest)
    ensures MoreAnd(l, [Word("AND")] + ts) == MoreAnd(Expr.And(l, e), rest)
  {
    hide ParseNot;
    assert ([Word("AND")] + ts)[1..] == ts;
  }

  lemma {:induction false} JoinWritten(es: seq<Expr>, parts: seq<string>)
    requires es != [] && |es| == |parts| && forall i :: 0 <= i < |es| ==> parts[i] == Written(Show(es[i]))
    ensures JoinTokens(es) != [] && JoinTokens(es)[|JoinTokens(es)| - 1] != Sym("(")
    ensures Join(parts) == Written(JoinTokens(es))
  {
    hide Written, Show;
    var last := es[|es| - 1];
    ShowEnds(last);
    if |es| > 1 {
      var front := es[..|es| - 1];
      JoinWritten(front, parts[..|parts| - 1]);
      assert " " + "AND" + " " == " AND ";
      JoinInside(JoinTokens(front), "AND", Show(last));
    }
  }

  lemma {:induction false} JoinIsProper(es: seq<Expr>)
    requires es != [] && AllWritable(es)
    ensures AllProper(JoinTokens(es))
  {
    hide Writable, Show, AllProper, Proper;
    var last := Show(es[|es| - 1]);
    ShowIsProper(es[|es| - 1]);
    if |es| > 1 {
      JoinIsProper(es[..|es| - 1]);
      Keywords();
      ProperBoth([Word("AND")], last);
      ProperBoth(JoinTokens(es[..|es| - 1]), [Word("AND")] + last);
    }
  }

  /** The joined text is read as the conjunction of its parts. */
  lemma JoinMeans(es: seq<Expr>, parts: seq<string>)
    requires es != [] && AllWritable(es)
    requires |es| == |parts| && forall i :: 0 <= i < |es| ==> parts[i] == Written(Show(es[i]))
    ensures Meant(Join(parts)) == Some(AndAll(es))
  {
    hide Written, Show, Writable, Lex, JoinTokens, AndAll, Join, ParseAnd;
    JoinWritten(es, parts);
    JoinIsProper(es);
    LexWritten(JoinTokens(es));
    ParseJoined(es, []);
    assert JoinTokens(es) + [] == JoinTokens(es);
    assert MoreAnd(AndAll(es), []) == Parsed(AndAll(es), []);
    assert MoreOr(AndAll(es), []) == Parsed(AndAll(es), []);
  }

  // ---- pushFilters ----

  predicate HasText(f: Filter, schema: seq<string>) { Translate(f, schema).Some? }

  /** The filters that have a text, or those that have none, in order. */
  function Select(filters: seq<Filter>, schema: seq<string>, translated: bool): seq<Filter> {
    if filters == [] then []
    else
      var front, last := filters[..|filters| - 1], filters[|filters| - 1];
      Select(front, schema, translated) + if HasText(last, schema) == translated then [last] else []
  }

  function TextOf(f: Filter, schema: seq<string>): string
    requires HasText(f, schema)
  {
    Translate(f, schema).value
  }

  function Texts(filters: seq<Filter>, schema: seq<string>): seq<string>
    requires forall i :: 0 <= i < |filters| ==> HasText(filters[i], schema)
  {
    seq(|filters|, i requires 0 <= i < |filters| => TextOf(filters[i], schema))
  }

  lemma {:induction false} AllSnoc(filters: seq<Filter>, f: Filter, row: Row)
    ensures All(filters + [f], row) == Both(All(filters, row), SparkEval(f, row))
  {
    hide SparkEval;
    if filters == [] {
      assert filters + [f] == [f] && [f][1..] == [];
    } else {
      AllSnoc(filters[1..], f, row);
      assert (filters + [f])[1..] == filters[1..] + [f];
    }
  }

  /** The partition loses no filter: the conjunction of both parts is the conjunction of all. */
  lemma {:induction false} SplitConjunction(filters: seq<Filter>, schema: seq<string>, row: Row)
    ensures Both(All(Select(filters, schema, true), row), All(Select(filters, schema, false), row)) == All(filters, row)
  {
    hide SparkEval, All, HasText;
    if filters == [] {
      NoneSelected(row);
    } else {
      var front, last := filters[..|filters| - 1], filters[|filters| - 1];
      SplitConjunction(front, schema, row);
      AllSnoc(front, last, row);
      AllSnoc(Select(front, schema, true), last, row);
      AllSnoc(Select(front, schema, false), last, row);
      assert filters == front + [last];
      assert Select(front, schema, true) + [] == Select(front, schema, true);
      assert Select(front, schema, false) + [] == Select(front, schema, false);
    }
  }

  lemma NoneSelected(row: Row)
    ensures All([], row) == True
  {
  }

  lemma {:induction false} EvalAndAll(filters: seq<Filter>, es: seq<Expr>, row: Row)
    requires es != [] && |es| == |filters| && forall i :: 0 <= i < |es| ==> Eval(es[i], row) == SparkEval(filters[i], row)
    ensures Eval(AndAll(es), row) == All(filters, row)
  {
    hide SparkEval, Compared, Coerced, CoercedAll, AnyEqual, Liked;
    var last := filters[|filters| - 1];
    if |es| == 1 {
      assert filters == [last] && filters[1..] == [];
    } else {
      var front := filters[..|filters| - 1];
      EvalAndAll(front, es[..|es| - 1], row);
      AllSnoc(front, last, row);
      assert filters == front + [last];
    }
  }

  function Exprs(filters: seq<Filter>): seq<Expr> {
    seq(|filters|, i requires 0 <= i < |filters| => ExprOf(filters[i]))
  }

  /** The joined text of translated filters does to every row what their conjunction does. */
  lemma JoinedMeaning(filters: seq<Filter>, schema: seq<string>, row: Row)
    requires filters != [] && forall i :: 0 <= i < |filters| ==> HasText(filters[i], schema)
    requires forall i :: 0 <= i < |filters| ==> Typed(filters[i], row) && Utf8Literals(filters[i])
    ensures Pushed(Some(Join(Texts(filters, schema))), row) == All(filters, row)
  {
    hide All, AndAll, Join, Meant, Written, Show, Translate, ExprOf, SparkEval, Eval, Writable, Typed, Utf8Literals;
    var es := Exprs(filters);
    forall i | 0 <= i < |filters|
      ensures Writable(es[i]) && Texts(filters, schema)[i] == Written(Show(es[i]))
      ensures Eval(es[i], row) == SparkEval(filters[i], row)
    {
      assert HasText(filters[i], schema);
      TranslatedText(filters[i], schema);
      TranslatedMeaning(filters[i], schema, row);
    }
    JoinMeans(es, Texts(filters, schema));
    EvalAndAll(filters, es, row);
  }

  predicate PartsAre(parts: seq<string>, pushed: seq<Filter>, schema: seq<string>) {
    (forall i :: 0 <= i < |pushed| ==> HasText(pushed[i], schema)) && parts == Texts(pushed, schema)
  }

  lemma NoTexts(schema: seq<string>)
    ensures PartsAre([], [], schema)
  {
  }

  lemma PartsGrow(parts: seq<string>, pushed: seq<Filter>, f: Filter, schema: seq<string>)
    requires PartsAre(parts, pushed, schema)
    ensures Translate(f, schema).Some? ==> PartsAre(parts + [Translate(f, schema).value], pushed + [f], schema)
  {
    hide Translate;
  }

  lemma SelectSnoc(filters: seq<Filter>, i: nat, schema: seq<string>)
    requires i < |filters|
    ensures forall b :: Select(filters[..i + 1], schema, b)
                     == Select(filters[..i], schema, b) + if Translate(filters[i], schema).Some? == b then [filters[i]] else []
  {
    hide Translate;
    assert filters[..i + 1][..i] == filters[..i];
  }

  lemma NothingPushed(row: Row, all: Truth)
    ensures Both(Pushed(None, row), all) == all
  {
  }

  lemma PushedMeaning(parts: seq<string>, pushed: seq<Filter>, schema: seq<string>, row: Row)
    requires PartsAre(parts, pushed, schema)
    requires forall i :: 0 <= i < |pushed| ==> Typed(pushed[i], row) && Utf8Literals(pushed[i])
    ensures Pushed(if parts == [] then None else Some(Join(parts)), row) == All(pushed, row)
  {
    hide Join, Meant, Typed, Utf8Literals;
    if pushed != [] { JoinedMeaning(pushed, schema, row); }
  }

  /** The filters that get a text fit the row's types, and their literals of bytes are valid UTF-8. */
  predicate AllFaithful(filters: seq<Filter>, schema: seq<string>, row: Row) {
    forall i :: 0 <= i < |filters| && HasText(filters[i], schema) ==> Typed(filters[i], row) && Utf8Literals(filters[i])
  }

  lemma {:induction false} SelectedAre(filters: seq<Filter>, schema: seq<string>, translated: bool)
    ensures forall f :: f in Select(filters, schema, translated) ==> f in filters && HasText(f, schema) == translated
  {
    hide HasText;
    if filters != [] { SelectedAre(filters[..|filters| - 1], schema, translated); }
  }

  lemma FaithfulSelected(filters: seq<Filter>, schema: seq<string>, row: Row)
    requires AllFaithful(filters, schema, row)
    ensures var pushed := Select(filters, schema, true);
      forall i :: 0 <= i < |pushed| ==> Typed(pushed[i], row) && Utf8Literals(pushed[i])
  {
    hide HasText, Typed, Utf8Literals, Select;
    SelectedAre(filters, schema, true);
    var pushed := Select(filters, schema, true);
    forall i | 0 <= i < |pushed| ensures Typed(pushed[i], row) && Utf8Literals(pushed[i]) {
      var f := pushed[i];
      assert f in pushed;
      var j :| 0 <= j < |filters| && filters[j] == f;
    }
  }

  lemma TextOfByte()
    ensures Translate(EqualTo("c", BytesValue([0xFF])), ["c"]) == Some("\"c\" = '\U{FFFD}'")
  {
    var r := [Utf8.REPLACEMENT];
    assert Utf8.Decode([0xFF]) == r + Utf8.Decode([]) && r + "" == r;
    assert FormatStringLiteral(r) == Some("'" + r + "'");
    assert ["c"][0] == "c" && HasColumn(["c"], "c");
    assert QuoteIdent("c") == Some("\"" + "c" + "\"");
    var v := BytesValue([0xFF]);
    assert TranslateCompare(["c"], "c", " = ", v) == Some("\"" + "c" + "\"" + " = " + ("'" + r + "'"));
    assert "\"" + "c" + "\"" + " = " + ("'" + r + "'") == "\"c\" = '\U{FFFD}'";
  }

  /** A filter on the byte 0xFF is pushed down as a comparison with the replacement character: the row that holds the byte is
      lost, and no filter is left over that could find it. */
  lemma LostRow() returns (row: Row)
    ensures var f := EqualTo("c", BytesValue([0xFF]));
      && Select([f], ["c"], true) == [f] && Select([f], ["c"], false) == []
      && Typed(f, row) && SparkEval(f, row) == True && Pushed(Some("\"c\" = '\U{FFFD}'"), row) == False
  {
    var f := EqualTo("c", BytesValue([0xFF]));
    row := OneColumn(BytesValue([0xFF]));
    TextOfByte();
    assert [f][..0] == [] && HasText(f, ["c"]);
    TextMeans(f, ["c"]);
    assert !Utf8.Valid([0xFF]);
    NeverTheseBytes(row("c"), f.value);
    assert row("c") == f.value;
    assert Eval(ExprOf(f), row) == False;
    assert Select([f], ["c"], true) == [f];
  }

  /** A row is kept by the pushed text and the filters left over exactly when all filters keep it. */
  method PushFilters(filters: seq<Filter>, schema: seq<string>, disabled: bool)
    returns (pushed: seq<Filter>, unpushed: seq<Filter>, text: Option<string>)
    ensures disabled ==> pushed == [] && unpushed == filters && text.None?
    ensures !disabled ==> pushed == Select(filters, schema, true) && unpushed == Select(filters, schema, false)
    ensures forall row: Row :: AllFaithful(filters, schema, row) || disabled ==>
      Both(Pushed(text, row), All(unpushed, row)) == All(filters, row)
  {
    hide All, Pushed, HasText, Texts, Join, AllFaithful, Typed, Utf8Literals;
    if disabled {
      forall row: Row ensures Both(Pushed(None, row), All(filters, row)) == All(filters, row) { NothingPushed(row, All(filters, row)); }
      return [], filters, None;
    }
    pushed, unpushed := [], [];
    var parts: seq<string> := [];
    NoTexts(schema);
    for i := 0 to |filters|
      invariant pushed == Select(filters[..i], schema, true) && unpushed == Select(filters[..i], schema, false)
      invariant PartsAre(parts, pushed, schema)
    {
      SelectSnoc(filters, i, schema);
      PartsGrow(parts, pushed, filters[i], schema);
      var expr := Translate(filters[i], schema);
      if expr.Some? {
        pushed := pushed + [filters[i]];
        parts := parts + [expr.value];
      } else {
        unpushed := unpushed + [filters[i]];
      }
    }
    assert filters[..|filters|] == filters;
    text := if parts == [] then None else Some(Join(parts));
    forall row: Row | AllFaithful(filters, schema, row)
      ensures Both(Pushed(text, row), All(unpushed, row)) == All(filters, row)
    {
      SplitConjunction(filters, schema, row);
      FaithfulSelected(filters, schema, row);
      PushedMeaning(parts, pushed, schema, row);
    }
  }
}
