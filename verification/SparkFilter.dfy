/** Printing Spark filters as engine filter text, and why the text means what the filter means. */
module SparkFilter {
  import opened Options
  import opened SqlText
  import opened FilterExpr
  import opened FilterParser
  import Dates
  import Thrift
  import Utf8

  datatype Filter =
    | EqualTo(attribute: string, value: Value)
    | GreaterThan(attribute: string, value: Value)
    | GreaterThanOrEqual(attribute: string, value: Value)
    | LessThan(attribute: string, value: Value)
    | LessThanOrEqual(attribute: string, value: Value)
    | IsNull(attribute: string)
    | IsNotNull(attribute: string)
    | In(attribute: string, values: seq<Value>)
    | StringContains(attribute: string, text: string)
    | StringStartsWith(attribute: string, text: string)
    | StringEndsWith(attribute: string, text: string)
    | Not(child: Filter)
    | And(left: Filter, right: Filter)
    | Or(left: Filter, right: Filter)
    | Other(truth: Row -> Truth)

  // ---- What Spark means ----

  function TextTest(a: Value, holds: bool): Truth {
    if a.NullValue? then Unknown else Of(a.StringValue? && holds)
  }

  function SparkEval(f: Filter, row: Row): Truth {
    match f
    case EqualTo(a, v) => Compared(Eq, row(a), v)
    case GreaterThan(a, v) => Compared(Gt, row(a), v)
    case GreaterThanOrEqual(a, v) => Compared(Ge, row(a), v)
    case LessThan(a, v) => Compared(Lt, row(a), v)
    case LessThanOrEqual(a, v) => Compared(Le, row(a), v)
    case IsNull(a) => Of(row(a).NullValue?)
    case IsNotNull(a) => Of(!row(a).NullValue?)
    case In(a, vs) => AnyEqual(row(a), vs)
    case StringContains(a, t) => TextTest(row(a), row(a).StringValue? && Contains(row(a).s, t))
    case StringStartsWith(a, t) => TextTest(row(a), row(a).StringValue? && StartsWith(row(a).s, t))
    case StringEndsWith(a, t) => TextTest(row(a), row(a).StringValue? && EndsWith(row(a).s, t))
    case Not(c) => Negation(SparkEval(c, row))
    case And(l, r) => Both(SparkEval(l, row), SparkEval(r, row))
    case Or(l, r) => Either(SparkEval(l, row), SparkEval(r, row))
    case Other(truth) => truth(row)
  }

  // ---- The translation ----

  function QuoteIdent(col: string): Option<string> {
    if col == "" || '"' in col || '\0' in col then None else Some("\"" + col + "\"")
  }

  predicate HasColumn(schema: seq<string>, name: string) {
    '.' !in name && name in schema
  }

  function FormatStringLiteral(s: string): Option<string> {
    if exists i :: 0 <= i < |s| && (s[i] < ' ' || s[i] == '\'' || s[i] == '\\') then None else Some("'" + s + "'")
  }

  /** A decimal without an exponent. */
  function PlainString(unscaled: int, scale: int): string {
    if scale > 0 then DecimalText(unscaled, scale) else IntText(unscaled * Pow10(-scale))
  }

  function FormatLiteral(v: Value): Option<string> {
    match v
    case IntValue(n) => Some(IntText(n))
    case DecimalValue(u, scale) => Some(PlainString(u, scale))
    case BoolValue(b) => Some(if b then "true" else "false")
    case StringValue(s) => FormatStringLiteral(s)
    case BytesValue(b) => FormatStringLiteral(Utf8.Decode(b))
    case DateValue(d) => FormatStringLiteral(Dates.DateText(d))
    case _ => None
  }

  /** The text of a comparison, of a LIKE or of a NOT LIKE: nothing when the name or the literal has no text. */
  function Binary(attribute: string, op: string, literal: Option<string>): Option<string> {
    var col := QuoteIdent(attribute);
    if col.Some? && literal.Some? then Some(col.value + op + literal.value) else None
  }

  function TranslateCompare(schema: seq<string>, attribute: string, op: string, value: Value): Option<string> {
    if !HasColumn(schema, attribute) || value.NullValue? then None else Binary(attribute, op, FormatLiteral(value))
  }

  function TranslateLike(schema: seq<string>, attribute: string, op: string, text: string, pattern: string): Option<string> {
    if !HasColumn(schema, attribute) || !Plain(text) then None else Binary(attribute, op, FormatStringLiteral(pattern))
  }

  /** The literals of an IN list joined with commas, or nothing when one is NULL or has no text. */
  function Literals(values: seq<Value>): Option<string>
    requires values != []
  {
    var first := FormatLiteral(values[0]);
    if first.None? then None
    else if |values| == 1 then first
    else
      match Literals(values[1..])
      case None => None
      case Some(more) => Some(first.value + ", " + more)
  }

  /** The negated tests that have an operator of their own. */
  function TranslateNot(child: Filter, schema: seq<string>): Option<string> {
    match child
    case EqualTo(a, v) => TranslateCompare(schema, a, " != ", v)
    case StringContains(a, t) => TranslateLike(schema, a, " NOT LIKE ", t, "%" + t + "%")
    case StringStartsWith(a, t) => TranslateLike(schema, a, " NOT LIKE ", t, t + "%")
    case StringEndsWith(a, t) => TranslateLike(schema, a, " NOT LIKE ", t, "%" + t)
    case _ => None
  }

  function Translate(f: Filter, schema: seq<string>): Option<string> {
    match f
    case EqualTo(a, v) => TranslateCompare(schema, a, " = ", v)
    case GreaterThan(a, v) => TranslateCompare(schema, a, " > ", v)
    case GreaterThanOrEqual(a, v) => TranslateCompare(schema, a, " >= ", v)
    case LessThan(a, v) => TranslateCompare(schema, a, " < ", v)
    case LessThanOrEqual(a, v) => TranslateCompare(schema, a, " <= ", v)
    case IsNull(a) => if HasColumn(schema, a) then Suffixed(QuoteIdent(a), " IS NULL") else None
    case IsNotNull(a) => if HasColumn(schema, a) then Suffixed(QuoteIdent(a), " IS NOT NULL") else None
    case In(a, vs) =>
      if !HasColumn(schema, a) || vs == [] || QuoteIdent(a).None? || Literals(vs).None? then None
      else Some(QuoteIdent(a).value + " IN (" + Literals(vs).value + ")")
    case StringContains(a, t) => TranslateLike(schema, a, " LIKE ", t, "%" + t + "%")
    case StringStartsWith(a, t) => TranslateLike(schema, a, " LIKE ", t, t + "%")
    case StringEndsWith(a, t) => TranslateLike(schema, a, " LIKE ", t, "%" + t)
    case Not(c) =>
      if TranslateNot(c, schema).Some? then TranslateNot(c, schema)
      else
        (match Translate(c, schema)
         case None => None
         case Some(inner) => Some("NOT (" + inner + ")"))
    case And(l, r) => Joined(Translate(l, schema), " AND ", Translate(r, schema))
    case Or(l, r) => Joined(Translate(l, schema), " OR ", Translate(r, schema))
    case Other(_) => None
  }

  function Suffixed(col: Option<string>, suffix: string): Option<string> {
    if col.Some? then Some(col.value + suffix) else None
  }

  function Joined(l: Option<string>, word: string, r: Option<string>): Option<string> {
    if l.Some? && r.Some? then Some("(" + l.value + word + r.value + ")") else None
  }

  // ---- Which filters have a translation ----

  /** The tests that a filter is made of, negated or not. */
  function Tests(f: Filter): seq<Filter> {
    match f
    case Not(c) => Tests(c)
    case And(l, r) => Tests(l) + Tests(r)
    case Or(l, r) => Tests(l) + Tests(r)
    case _ => [f]
  }

  predicate IsColumn(schema: seq<string>, name: string) {
    name in schema && name != "" && forall i :: 0 <= i < |name| ==> name[i] !in {'.', '"', '\0'}
  }

  predicate Printable(s: string) {
    forall i :: 0 <= i < |s| ==> s[i] >= ' ' && s[i] != '\'' && s[i] != '\\'
  }

  /** Every number, truth value and date has a literal, and a text or the text of bytes without a quote, a backslash or a
      control character. */
  predicate HasText(v: Value) {
    || v.IntValue? || v.DecimalValue? || v.BoolValue? || v.DateValue?
    || (v.StringValue? && Printable(v.s)) || (v.BytesValue? && Printable(Utf8.Decode(v.bytes)))
  }

  predicate TestPushable(t: Filter, schema: seq<string>) {
    match t
    case IsNull(a) => IsColumn(schema, a)
    case IsNotNull(a) => IsColumn(schema, a)
    case In(a, vs) => IsColumn(schema, a) && vs != [] && forall v :: v in vs ==> HasText(v)
    case StringContains(a, s) => IsColumn(schema, a) && Plain(s) && Printable(s)
    case StringStartsWith(a, s) => IsColumn(schema, a) && Plain(s) && Printable(s)
    case StringEndsWith(a, s) => IsColumn(schema, a) && Plain(s) && Printable(s)
    case EqualTo(a, v) => IsColumn(schema, a) && HasText(v)
    case GreaterThan(a, v) => IsColumn(schema, a) && HasText(v)
    case GreaterThanOrEqual(a, v) => IsColumn(schema, a) && HasText(v)
    case LessThan(a, v) => IsColumn(schema, a) && HasText(v)
    case LessThanOrEqual(a, v) => IsColumn(schema, a) && HasText(v)
    case _ => false
  }

  /** A filter is pushed down exactly when every test in it can be, however they are combined or negated. */
  lemma {:induction false} TranslatedIff(f: Filter, schema: seq<string>)
    ensures Translate(f, schema).Some? <==> forall t :: t in Tests(f) ==> TestPushable(t, schema)
  {
    hide TestPushable, TranslateCompare, TranslateLike, TranslateNot, Literals, QuoteIdent, HasColumn;
    match f
    case Not(c) =>
      TranslatedIff(c, schema);
      NotTranslated(c, schema);
    case And(l, r) =>
      TranslatedIff(l, schema);
      TranslatedIff(r, schema);
    case Or(l, r) =>
      TranslatedIff(l, schema);
      TranslatedIff(r, schema);
    case _ => TestTranslated(f, schema);
  }

  lemma NotTranslated(c: Filter, schema: seq<string>)
    ensures TranslateNot(c, schema).Some? ==> Translate(c, schema).Some?
  {
    hide FormatLiteral, FormatStringLiteral, QuoteIdent, HasColumn;
  }

  lemma TestTranslated(t: Filter, schema: seq<string>)
    requires !t.Not? && !t.And? && !t.Or?
    ensures Translate(t, schema).Some? <==> TestPushable(t, schema)
  {
    hide FormatLiteral, FormatStringLiteral, HasText, Printable, Plain, QuoteIdent, HasColumn, IsColumn;
    match t
    case In(a, vs) =>
      ColumnHasName(schema, a);
      if vs != [] { ListHasText(vs); }
    case StringContains(a, s) => ColumnHasName(schema, a); PatternHasText("%", s, "%");
    case StringStartsWith(a, s) => ColumnHasName(schema, a); PatternHasText("", s, "%"); assert "" + s == s;
    case StringEndsWith(a, s) => ColumnHasName(schema, a); PatternHasText("%", s, ""); assert "%" + s + "" == "%" + s;
    case EqualTo(a, v) => ColumnHasName(schema, a); ValueHasText(v);
    case GreaterThan(a, v) => ColumnHasName(schema, a); ValueHasText(v);
    case GreaterThanOrEqual(a, v) => ColumnHasName(schema, a); ValueHasText(v);
    case LessThan(a, v) => ColumnHasName(schema, a); ValueHasText(v);
    case LessThanOrEqual(a, v) => ColumnHasName(schema, a); ValueHasText(v);
    case IsNull(a) => ColumnHasName(schema, a);
    case IsNotNull(a) => ColumnHasName(schema, a);
    case _ =>
  }

  lemma ColumnHasName(schema: seq<string>, name: string)
    ensures HasColumn(schema, name) && QuoteIdent(name).Some? <==> IsColumn(schema, name)
  {
  }

  lemma DatePrints(d: Dates.Date)
    ensures FormatStringLiteral(Dates.DateText(d)).Some?
  {
    hide Padded;
    forall i | 0 <= i < |Dates.DateText(d)| ensures Dates.DateText(d)[i] == '+' || Dates.DateText(d)[i] == '-' || IsDigit(Dates.DateText(d)[i]) {}
  }

  lemma ValueHasText(v: Value)
    ensures FormatLiteral(v).Some? <==> HasText(v)
    ensures v.NullValue? ==> !HasText(v)
  {
    hide Utf8.Decode, PlainString, IntText, Dates.DateText;
    if v.DateValue? { DatePrints(v.d); }
  }

  lemma {:induction false} ListHasText(values: seq<Value>)
    requires values != []
    ensures Literals(values).Some? <==> forall v :: v in values ==> HasText(v)
  {
    hide FormatLiteral, HasText;
    ValueHasText(values[0]);
    assert forall v :: v in values <==> v == values[0] || v in values[1..];
    if |values| > 1 { ListHasText(values[1..]); }
  }

  lemma PatternHasText(before: string, s: string, after: string)
    requires before in {"", "%"} && after in {"", "%"}
    ensures FormatStringLiteral(before + s + after).Some? <==> Printable(s)
  {
    var t := before + s + after;
    assert forall i :: 0 <= i < |s| ==> t[|before| + i] == s[i];
    assert forall i :: 0 <= i < |t| ==> t[i] == '%' || (|before| <= i < |before| + |s| && t[i] == s[i - |before|]);
  }

  // ---- The expression a translated filter becomes ----

  /** The value that a literal's text is read as. */
  function EngineValue(v: Value): Value {
    match v
    case DecimalValue(u, scale) => if scale > 0 then v else IntValue(u * Pow10(-scale))
    case BytesValue(b) => StringValue(Utf8.Decode(b))
    case DateValue(d) => StringValue(Dates.DateText(d))
    case _ => v
  }

  function EngineValues(values: seq<Value>): (r: seq<Value>)
    ensures |r| == |values|
  {
    if values == [] then [] else [EngineValue(values[0])] + EngineValues(values[1..])
  }

  function ExprOf(f: Filter): Expr {
    match f
    case EqualTo(a, v) => Compare(a, Eq, EngineValue(v))
    case GreaterThan(a, v) => Compare(a, Gt, EngineValue(v))
    case GreaterThanOrEqual(a, v) => Compare(a, Ge, EngineValue(v))
    case LessThan(a, v) => Compare(a, Lt, EngineValue(v))
    case LessThanOrEqual(a, v) => Compare(a, Le, EngineValue(v))
    case IsNull(a) => Expr.IsNull(a)
    case IsNotNull(a) => Expr.IsNotNull(a)
    case In(a, vs) => InList(a, EngineValues(vs))
    case StringContains(a, t) => Like(a, "%" + t + "%", false)
    case StringStartsWith(a, t) => Like(a, t + "%", false)
    case StringEndsWith(a, t) => Like(a, "%" + t, false)
    case Not(c) =>
      (match c
       case EqualTo(a, v) => Compare(a, Ne, EngineValue(v))
       case StringContains(a, t) => Like(a, "%" + t + "%", true)
       case StringStartsWith(a, t) => Like(a, t + "%", true)
       case StringEndsWith(a, t) => Like(a, "%" + t, true)
       case _ => Expr.Not(ExprOf(c)))
    case And(l, r) => Expr.And(ExprOf(l), ExprOf(r))
    case Or(l, r) => Expr.Or(ExprOf(l), ExprOf(r))
    case Other(_) => Expr.IsNull("")
  }

  // ---- The text is that expression's ----

  lemma QuoteIdentText(col: string)
    ensures QuoteIdent(col).Some? ==> QuoteIdent(col).value == Text(Name(col))
  {
    if '"' !in col { NothingToDouble(col, '"'); }
  }

  lemma StringLiteralText(s: string)
    ensures FormatStringLiteral(s).Some? ==> FormatStringLiteral(s).value == Text(Str(s))
  {
    if FormatStringLiteral(s).Some? {
      assert '\'' !in s;
      NothingToDouble(s, '\'');
    }
  }

  lemma LiteralText(v: Value)
    ensures FormatLiteral(v).Some? ==> HasLiteral(EngineValue(v)) && FormatLiteral(v).value == Text(Literal(EngineValue(v)))
  {
    hide Utf8.Decode, Dates.DateText, FormatStringLiteral, IntText, DecimalText, Quoted, Pow10;
    match v
    case StringValue(s) => StringLiteralText(s);
    case BytesValue(b) => StringLiteralText(Utf8.Decode(b));
    case DateValue(d) => StringLiteralText(Dates.DateText(d));
    case _ =>
  }

  function SpacedOp(op: Op): string {
    match op
    case Eq => " = "
    case Ne => " != "
    case Gt => " > "
    case Ge => " >= "
    case Lt => " < "
    case Le => " <= "
  }

  lemma CompareText(schema: seq<string>, a: string, op: Op, v: Value)
    ensures var text := TranslateCompare(schema, a, SpacedOp(op), v);
            text.Some? ==> HasLiteral(EngineValue(v)) && text.value == Written(Show(Compare(a, op, EngineValue(v))))
  {
    hide Text, FormatLiteral, QuoteIdent, Written, OpText, SpacedOp, Literal, EngineValue;
    QuoteIdentText(a);
    LiteralText(v);
    WrittenThree(Name(a), Sym(OpText(op)), Literal(EngineValue(v)));
    SymText(OpText(op));
    OpIsSpaced(op);
    LiteralIsNoSymbol(EngineValue(v));
    assert Text(Name(a)) + " " + OpText(op) + " " == Text(Name(a)) + (" " + OpText(op) + " ");
  }

  lemma OpIsSpaced(op: Op)
    ensures " " + OpText(op) + " " == SpacedOp(op) && OpText(op) != ")" && OpText(op) != "," && OpText(op) != "("
  {
  }

  lemma LikeText(schema: seq<string>, a: string, t: string, pattern: string)
    ensures var text := TranslateLike(schema, a, " LIKE ", t, pattern);
            text.Some? ==> Plain(t) && text.value == Written(Show(Like(a, pattern, false)))
  {
    hide Text, FormatStringLiteral, QuoteIdent, Plain, Written;
    QuoteIdentText(a);
    StringLiteralText(pattern);
    WrittenThree(Name(a), Word("LIKE"), Str(pattern));
    WordText("LIKE");
    assert [Name(a)] + [] + [Word("LIKE"), Str(pattern)] == [Name(a), Word("LIKE"), Str(pattern)];
    assert Text(Name(a)) + " " + "LIKE" + " " == Text(Name(a)) + " LIKE ";
  }

  lemma NotLikeText(schema: seq<string>, a: string, t: string, pattern: string)
    ensures var text := TranslateLike(schema, a, " NOT LIKE ", t, pattern);
            text.Some? ==> Plain(t) && text.value == Written(Show(Like(a, pattern, true)))
  {
    hide Text, FormatStringLiteral, QuoteIdent, Plain, Written;
    QuoteIdentText(a);
    StringLiteralText(pattern);
    WrittenFour(Name(a), Word("NOT"), Word("LIKE"), Str(pattern));
    WordText("NOT");
    WordText("LIKE");
    assert [Name(a)] + [Word("NOT")] + [Word("LIKE"), Str(pattern)] == [Name(a), Word("NOT"), Word("LIKE"), Str(pattern)];
    assert Text(Name(a)) + " " + "NOT" + " " + "LIKE" + " " == Text(Name(a)) + " NOT LIKE ";
  }

  lemma NullText(a: string)
    requires QuoteIdent(a).Some?
    ensures QuoteIdent(a).value + " IS NULL" == Written(Show(Expr.IsNull(a)))
  {
    hide Text, QuoteIdent, Written;
    QuoteIdentText(a);
    WrittenThree(Name(a), Word("IS"), Word("NULL"));
    WordText("IS");
    WordText("NULL");
    assert Text(Name(a)) + " " + "IS" + " " + "NULL" == Text(Name(a)) + " IS NULL";
  }

  lemma NotNullText(a: string)
    requires QuoteIdent(a).Some?
    ensures QuoteIdent(a).value + " IS NOT NULL" == Written(Show(Expr.IsNotNull(a)))
  {
    hide Text, QuoteIdent, Written;
    QuoteIdentText(a);
    WrittenFour(Name(a), Word("IS"), Word("NOT"), Word("NULL"));
    WordText("IS");
    WordText("NOT");
    WordText("NULL");
    assert Text(Name(a)) + " " + "IS" + " " + "NOT" + " " + "NULL" == Text(Name(a)) + " IS NOT NULL";
  }

  lemma {:induction false} ListText(values: seq<Value>)
    requires values != []
    ensures var read := EngineValues(values);
      && ListTokens(read) != [] && ListTokens(read)[0] == Literal(read[0])
      && (Literals(values).Some? ==> Literals(values).value == Written(ListTokens(read)))
      && (Literals(values).Some? ==> forall i :: 0 <= i < |read| ==> HasLiteral(read[i]))
  {
    hide Text, FormatLiteral, Written, Literal, HasLiteral, EngineValue;
    var read := EngineValues(values);
    LiteralText(values[0]);
    if |values| == 1 {
      WrittenOne(Literal(read[0]));
    } else {
      ListText(values[1..]);
      assert read[1..] == EngineValues(values[1..]);
      ListStep(read[0], read[1], ListTokens(read[1..]));
    }
  }

  lemma ListStep(v: Value, next: Value, tail: seq<Token>)
    requires tail != [] && tail[0] == Literal(next)
    ensures Written([Literal(v), Sym(",")] + tail) == Text(Literal(v)) + ", " + Written(tail)
  {
    hide Text, Written, Literal;
    WrittenBoth([Literal(v), Sym(",")], tail);
    WrittenTwo(Literal(v), Sym(","));
    SymText(",");
    LiteralIsNoSymbol(v);
    LiteralIsNoSymbol(next);
    assert Text(Literal(v)) + "" + "," + " " == Text(Literal(v)) + ", ";
  }

  lemma LiteralIsNoSymbol(v: Value)
    ensures !Literal(v).Sym?
  {
  }

  lemma InText(a: string, values: seq<Value>)
    requires values != [] && QuoteIdent(a).Some? && Literals(values).Some?
    ensures QuoteIdent(a).value + " IN (" + Literals(values).value + ")" == Written(Show(InList(a, EngineValues(values))))
  {
    hide Text, QuoteIdent, Literals, ListTokens, Literal, Written;
    QuoteIdentText(a);
    ListText(values);
    WrittenThree(Name(a), Word("IN"), Sym("("));
    WordText("IN");
    SymText("(");
    Enclosed([Name(a), Word("IN"), Sym("(")], ListTokens(EngineValues(values)));
  }

  /** A run of tokens between an opening parenthesis, with what precedes it, and the closing one. */
  lemma Enclosed(before: seq<Token>, inner: seq<Token>)
    requires before != [] && before[|before| - 1] == Sym("(") && inner != []
    ensures Written(before + inner + [Sym(")")]) == Written(before) + Written(inner) + ")"
  {
    hide Written;
    WrittenBoth(before, inner);
    WrittenBoth(before + inner, [Sym(")")]);
    WrittenOne(Sym(")"));
    assert Written(before) + "" + Written(inner) == Written(before) + Written(inner);
    assert Written(before) + Written(inner) + "" == Written(before) + Written(inner);
  }

  lemma {:induction false} ShowEnds(e: Expr)
    ensures Show(e) != [] && !(Show(e)[0].Sym? && Show(e)[0] != Sym("(")) && Show(e)[|Show(e)| - 1] != Sym("(")
  {
    match e
    case Compare(_, _, v) => LiteralIsNoSymbol(v);
    case _ =>
  }

  lemma NotText(e: Expr)
    ensures Written(Show(Expr.Not(e))) == "NOT (" + Written(Show(e)) + ")"
  {
    hide Written;
    ShowEnds(e);
    Enclosed([Word("NOT"), Sym("(")], Show(e));
    WrittenTwo(Word("NOT"), Sym("("));
  }

  lemma AndText(l: Expr, r: Expr)
    ensures Written(Show(Expr.And(l, r))) == "(" + Written(Show(l)) + " AND " + Written(Show(r)) + ")"
  {
    hide Written;
    assert " " + "AND" + " " == " AND ";
    JoinText(l, "AND", " AND ", r);
  }

  lemma OrText(l: Expr, r: Expr)
    ensures Written(Show(Expr.Or(l, r))) == "(" + Written(Show(l)) + " OR " + Written(Show(r)) + ")"
  {
    hide Written;
    assert " " + "OR" + " " == " OR ";
    JoinText(l, "OR", " OR ", r);
  }

  lemma JoinText(l: Expr, word: string, spaced: string, r: Expr)
    requires spaced == " " + word + " "
    ensures Written([Sym("(")] + Show(l) + [Word(word)] + Show(r) + [Sym(")")])
         == "(" + Written(Show(l)) + spaced + Written(Show(r)) + ")"
  {
    hide Written, Show;
    ShowEnds(l);
    ShowEnds(r);
    var inner := Show(l) + ([Word(word)] + Show(r));
    Enclosed([Sym("(")], inner);
    JoinInside(Show(l), word, Show(r));
    WrittenOne(Sym("("));
    assert [Sym("(")] + inner + [Sym(")")] == [Sym("(")] + Show(l) + [Word(word)] + Show(r) + [Sym(")")];
    Regrouped("(", Written(Show(l)), spaced, Written(Show(r)), ")");
  }

  lemma Regrouped(a: string, b: string, c: string, d: string, e: string)
    ensures a + (b + c + d) + e == a + b + c + d + e
  {
  }

  /** Two operands around AND or OR, none of them starting or ending where no space is written. */
  lemma JoinInside(l: seq<Token>, word: string, r: seq<Token>)
    requires l != [] && r != [] && l[|l| - 1] != Sym("(") && !(r[0].Sym? && r[0] != Sym("("))
    ensures Written(l + ([Word(word)] + r)) == Written(l) + (" " + word + " ") + Written(r)
  {
    hide Written;
    WrittenBoth(l, [Word(word)] + r);
    WrittenBoth([Word(word)], r);
    WrittenOne(Word(word));
    AroundWord(Written(l), word, Written(r));
  }

  lemma AroundWord(a: string, word: string, b: string)
    ensures a + " " + (word + " " + b) == a + (" " + word + " ") + b
  {
    assert a + " " + (word + " " + b) == a + (" " + (word + " " + b));
    assert " " + (word + " " + b) == (" " + word + " ") + b;
  }

  lemma TestText(f: Filter, schema: seq<string>)
    requires Translate(f, schema).Some? && !f.Not? && !f.And? && !f.Or?
    ensures Writable(ExprOf(f)) && Translate(f, schema).value == Written(Show(ExprOf(f)))
  {
    hide Written, Show, QuoteIdent, HasColumn, Literals, TranslateCompare, TranslateLike;
    match f
    case EqualTo(a, v) => CompareText(schema, a, Eq, v);
    case GreaterThan(a, v) => CompareText(schema, a, Gt, v);
    case GreaterThanOrEqual(a, v) => CompareText(schema, a, Ge, v);
    case LessThan(a, v) => CompareText(schema, a, Lt, v);
    case LessThanOrEqual(a, v) => CompareText(schema, a, Le, v);
    case IsNull(a) => NullText(a);
    case IsNotNull(a) => NotNullText(a);
    case In(a, vs) =>
      ListText(vs);
      InText(a, vs);
    case StringContains(a, t) => LikeText(schema, a, t, "%" + t + "%");
    case StringStartsWith(a, t) => LikeText(schema, a, t, t + "%");
    case StringEndsWith(a, t) => LikeText(schema, a, t, "%" + t);
  }

  /** Where there is a text, it is the text of the expression, and the expression can be read back. */
  lemma {:induction false} TranslatedText(f: Filter, schema: seq<string>)
    requires Translate(f, schema).Some?
    ensures Writable(ExprOf(f)) && Translate(f, schema).value == Written(Show(ExprOf(f)))
  {
    hide Written, Show, QuoteIdent, HasColumn, Literals, TranslateCompare, TranslateLike, TranslateNot;
    match f
    case Not(c) =>
      NotDirect(c, schema);
      if TranslateNot(c, schema).None? {
        TranslatedText(c, schema);
        NotText(ExprOf(c));
        NotFallsThrough(c, schema);
      }
    case And(l, r) =>
      TranslatedText(l, schema);
      TranslatedText(r, schema);
      AndText(ExprOf(l), ExprOf(r));
    case Or(l, r) =>
      TranslatedText(l, schema);
      TranslatedText(r, schema);
      OrText(ExprOf(l), ExprOf(r));
    case _ => TestText(f, schema);
  }

  lemma NotDirect(c: Filter, schema: seq<string>)
    ensures TranslateNot(c, schema).Some? ==>
              Writable(ExprOf(Filter.Not(c))) && TranslateNot(c, schema).value == Written(Show(ExprOf(Filter.Not(c))))
  {
    hide Written, Show, TranslateCompare, TranslateLike;
    match c
    case EqualTo(a, v) => CompareText(schema, a, Ne, v);
    case StringContains(a, t) => NotLikeText(schema, a, t, "%" + t + "%");
    case StringStartsWith(a, t) => NotLikeText(schema, a, t, t + "%");
    case StringEndsWith(a, t) => NotLikeText(schema, a, t, "%" + t);
    case _ =>
  }

  /** A negated test without text of its own has none as a negated whole either. */
  lemma NotFallsThrough(c: Filter, schema: seq<string>)
    requires TranslateNot(c, schema).None? && Translate(c, schema).Some?
    ensures ExprOf(Filter.Not(c)) == Expr.Not(ExprOf(c))
  {
    hide HasColumn, Plain, FormatLiteral, FormatStringLiteral, QuoteIdent;
  }

  // ---- The expression means what the filter means ----

  lemma LikeMeans(f: Filter, row: Row)
    requires (f.StringContains? || f.StringStartsWith? || f.StringEndsWith?) && Plain(f.text)
    ensures Eval(ExprOf(f), row) == SparkEval(f, row)
  {
    hide Matches, Contains, StartsWith, EndsWith, Plain;
    if row(f.attribute).StringValue? {
      var s := row(f.attribute).s;
      match f
      case StringContains(_, t) => ContainsIsLike(s, t);
      case StringStartsWith(_, t) => StartsWithIsLike(s, t);
      case StringEndsWith(_, t) => EndsWithIsLike(s, t);
    }
  }

  /** A column and a literal of one type: bytes are compared with bytes, and dates with dates. */
  predicate Fits(a: Value, v: Value) {
    a.NullValue? || v.NullValue? || ((a.BytesValue? <==> v.BytesValue?) && (a.DateValue? <==> v.DateValue?))
  }

  /** Spark gives the literals of a filter the types of its columns. */
  predicate Typed(f: Filter, row: Row) {
    match f
    case EqualTo(a, v) => Fits(row(a), v)
    case GreaterThan(a, v) => Fits(row(a), v)
    case GreaterThanOrEqual(a, v) => Fits(row(a), v)
    case LessThan(a, v) => Fits(row(a), v)
    case LessThanOrEqual(a, v) => Fits(row(a), v)
    case In(a, vs) => forall i :: 0 <= i < |vs| ==> Fits(row(a), vs[i])
    case Not(c) => Typed(c, row)
    case And(l, r) => Typed(l, row) && Typed(r, row)
    case Or(l, r) => Typed(l, row) && Typed(r, row)
    case _ => true
  }

  predicate IsUtf8(v: Value) { v.BytesValue? ==> Utf8.Valid(v.bytes) }

  /** Every literal of bytes is valid UTF-8. */
  predicate Utf8Literals(f: Filter) {
    match f
    case EqualTo(_, v) => IsUtf8(v)
    case GreaterThan(_, v) => IsUtf8(v)
    case GreaterThanOrEqual(_, v) => IsUtf8(v)
    case LessThan(_, v) => IsUtf8(v)
    case LessThanOrEqual(_, v) => IsUtf8(v)
    case In(_, vs) => forall i :: 0 <= i < |vs| ==> IsUtf8(vs[i])
    case Not(c) => Utf8Literals(c)
    case And(l, r) => Utf8Literals(l) && Utf8Literals(r)
    case Or(l, r) => Utf8Literals(l) && Utf8Literals(r)
    case _ => true
  }

  /** What the engine makes of a literal's text beside a value is the literal, or a number of the same size. */
  lemma LiteralRead(a: Value, v: Value)
    requires !a.NullValue? && Fits(a, v) && FormatLiteral(v).Some? && IsUtf8(v)
    ensures var read := Coerced(a, EngineValue(v));
      read == v || (IsNumber(read) && IsNumber(v) && Number(read) == Number(v))
  {
    hide Utf8.Decode, Utf8.Encode, Utf8.Valid, Dates.DateText, Dates.DateOf, FormatStringLiteral, Pow10, PlainString;
    match v
    case BytesValue(b) => Utf8.DecodeRoundTripIff(b);
    case DateValue(d) => Dates.DateRoundTrip(d);
    case _ =>
  }

  lemma LiteralMeans(op: Op, a: Value, v: Value)
    requires Fits(a, v) && FormatLiteral(v).Some? && IsUtf8(v)
    ensures Compared(op, a, Coerced(a, EngineValue(v))) == Compared(op, a, v)
  {
    hide Coerced, EngineValue, FormatLiteral, Fits, IsUtf8, Number, Related;
    NotNull(a, v);
    if !a.NullValue? {
      var read := Coerced(a, EngineValue(v));
      LiteralRead(a, v);
      if read != v { NumbersMean(op, a, read, v); }
    }
  }

  lemma NumbersMean(op: Op, a: Value, x: Value, y: Value)
    requires IsNumber(x) && IsNumber(y) && Number(x) == Number(y)
    ensures Related(op, a, x) == Related(op, a, y)
  {
    hide Number;
  }

  lemma NotNull(a: Value, v: Value)
    requires FormatLiteral(v).Some?
    ensures !v.NullValue? && !Coerced(a, EngineValue(v)).NullValue?
  {
  }

  lemma {:induction false} ListMeans(a: Value, values: seq<Value>)
    requires forall i :: 0 <= i < |values| ==> Fits(a, values[i]) && FormatLiteral(values[i]).Some? && IsUtf8(values[i])
    ensures AnyEqual(a, CoercedAll(a, EngineValues(values))) == AnyEqual(a, values)
  {
    hide Coerced, EngineValue, FormatLiteral, Fits, IsUtf8, Compared;
    if values != [] {
      LiteralMeans(Eq, a, values[0]);
      ListMeans(a, values[1..]);
      assert EngineValues(values)[1..] == EngineValues(values[1..]);
      var read := CoercedAll(a, EngineValues(values));
      assert read[1..] == CoercedAll(a, EngineValues(values[1..]));
    }
  }

  lemma {:induction false} LiteralsAll(values: seq<Value>)
    requires values != [] && Literals(values).Some?
    ensures forall i :: 0 <= i < |values| ==> FormatLiteral(values[i]).Some?
  {
    hide FormatLiteral;
    if |values| > 1 { LiteralsAll(values[1..]); }
  }

  lemma CompareMeans(schema: seq<string>, a: string, spaced: string, op: Op, v: Value, row: Row)
    requires TranslateCompare(schema, a, spaced, v).Some? && Fits(row(a), v) && IsUtf8(v)
    ensures Eval(Compare(a, op, EngineValue(v)), row) == Compared(op, row(a), v)
  {
    hide Coerced, EngineValue, FormatLiteral, Fits, IsUtf8, Compared, QuoteIdent, HasColumn;
    LiteralMeans(op, row(a), v);
  }

  /** The expression is as true, false or unknown as the filter, for every row, when its byte literals are valid UTF-8. */
  lemma {:induction false} TranslatedMeaning(f: Filter, schema: seq<string>, row: Row)
    requires Translate(f, schema).Some? && Typed(f, row) && Utf8Literals(f)
    ensures Eval(ExprOf(f), row) == SparkEval(f, row)
  {
    hide Matches, Contains, StartsWith, EndsWith, Plain, QuoteIdent, HasColumn, FormatLiteral, FormatStringLiteral, Literals;
    hide Fits, IsUtf8, Compared, Coerced, CoercedAll, EngineValue, EngineValues, AnyEqual, Liked, TranslateCompare, TranslateNot;
    match f
    case EqualTo(a, v) => CompareMeans(schema, a, " = ", Eq, v, row);
    case GreaterThan(a, v) => CompareMeans(schema, a, " > ", Gt, v, row);
    case GreaterThanOrEqual(a, v) => CompareMeans(schema, a, " >= ", Ge, v, row);
    case LessThan(a, v) => CompareMeans(schema, a, " < ", Lt, v, row);
    case LessThanOrEqual(a, v) => CompareMeans(schema, a, " <= ", Le, v, row);
    case In(a, vs) =>
      LiteralsAll(vs);
      ListMeans(row(a), vs);
    case StringContains(_, _) => LikeMeans(f, row);
    case StringStartsWith(_, _) => LikeMeans(f, row);
    case StringEndsWith(_, _) => LikeMeans(f, row);
    case Not(c) =>
      TranslatedIfDirect(c, schema);
      TranslatedMeaning(c, schema, row);
      NegatedEval(c, row);
    case And(l, r) =>
      TranslatedMeaning(l, schema, row);
      TranslatedMeaning(r, schema, row);
    case Or(l, r) =>
      TranslatedMeaning(l, schema, row);
      TranslatedMeaning(r, schema, row);
    case _ =>
  }

  /** The negated operators mean negation. */
  lemma NegatedEval(c: Filter, row: Row)
    ensures Eval(ExprOf(Filter.Not(c)), row) == Negation(Eval(ExprOf(c), row))
  {
    hide Liked, Compared, Coerced, EngineValue;
    if c.EqualTo? { NotEqualMeans(row(c.attribute), Coerced(row(c.attribute), EngineValue(c.value))); }
  }

  lemma NotEqualMeans(a: Value, v: Value)
    ensures Compared(Ne, a, v) == Negation(Compared(Eq, a, v))
  {
  }

  /** What has a negated operator has the plain one. */
  lemma TranslatedIfDirect(c: Filter, schema: seq<string>)
    requires Translate(Filter.Not(c), schema).Some?
    ensures Translate(c, schema).Some?
  {
    hide HasColumn, Plain, FormatLiteral, FormatStringLiteral, QuoteIdent;
  }

  // ---- What bytes that are not UTF-8 lose ----

  lemma {:induction false} BytesTotal(a: seq<Thrift.byte>, b: seq<Thrift.byte>)
    ensures !BytesLess(a, a)
    ensures a != b ==> BytesLess(a, b) != BytesLess(b, a)
  {
    if a != [] {
      BytesTotal(a[1..], if b == [] then [] else b[1..]);
      if b != [] && a[0] == b[0] && a != b { assert a == [a[0]] + a[1..] && b == [b[0]] + b[1..]; }
    }
  }

  /** Some bytes stand otherwise to `b` than to `r`, whatever the operator. */
  lemma Distinguished(op: Op, b: seq<Thrift.byte>, r: seq<Thrift.byte>) returns (w: seq<Thrift.byte>)
    requires b != r
    ensures Related(op, BytesValue(w), BytesValue(b)) != Related(op, BytesValue(w), BytesValue(r))
  {
    hide BytesLess;
    BytesTotal(b, r);
    BytesTotal(r, b);
    var smaller, larger := if BytesLess(b, r) then b else r, if BytesLess(b, r) then r else b;
    w := if op == Ge || op == Lt then smaller else if op == Eq || op == Ne then b else larger;
  }

  function OneColumn(v: Value): Row { (name: string) => v }

  /** A comparison with bytes that are not UTF-8 is another comparison: some row tells them apart. */
  lemma CompareLoses(a: string, op: Op, b: seq<Thrift.byte>) returns (w: Value)
    requires !Utf8.Valid(b)
    ensures w.BytesValue?
    ensures Eval(Compare(a, op, EngineValue(BytesValue(b))), OneColumn(w)) != Compared(op, w, BytesValue(b))
  {
    hide Utf8.Decode, Utf8.Encode, Utf8.Valid, Related;
    Utf8.DecodeRoundTripIff(b);
    var bytes := Distinguished(op, b, Utf8.Encode(Utf8.Decode(b)));
    w := BytesValue(bytes);
    assert OneColumn(w)(a) == w;
  }

  lemma {:induction false} NoneEqual(w: Value, values: seq<Value>)
    requires w.BytesValue? && !Utf8.Valid(w.bytes)
    requires forall i :: 0 <= i < |values| ==> FormatLiteral(values[i]).Some?
    ensures AnyEqual(w, CoercedAll(w, EngineValues(values))) == False
  {
    hide Utf8.Decode, Utf8.Encode, Utf8.Valid, FormatLiteral, EngineValue, Coerced;
    if values != [] {
      NoneEqual(w, values[1..]);
      NeverTheseBytes(w, values[0]);
      assert EngineValues(values)[1..] == EngineValues(values[1..]);
      var read := CoercedAll(w, EngineValues(values));
      assert read[1..] == CoercedAll(w, EngineValues(values[1..]));
    }
  }

  lemma NeverTheseBytes(w: Value, v: Value)
    requires w.BytesValue? && !Utf8.Valid(w.bytes) && FormatLiteral(v).Some?
    ensures Compared(Eq, w, Coerced(w, EngineValue(v))) == False
  {
    hide Utf8.Decode, Utf8.Encode, Utf8.Valid, Dates.DateText, Number;
    var read := EngineValue(v);
    if read.StringValue? { Utf8.EncodeRoundTrip(read.s); }
  }

  lemma {:induction false} FoundIn(w: Value, values: seq<Value>, i: nat)
    requires i < |values| && values[i] == w && !w.NullValue?
    ensures AnyEqual(w, values) == True
  {
    if i > 0 { FoundIn(w, values[1..], i - 1); }
  }

  /** The tests that compare a column with literals. */
  predicate IsLiteralTest(f: Filter) {
    match f
    case EqualTo(_, _) => true
    case GreaterThan(_, _) => true
    case GreaterThanOrEqual(_, _) => true
    case LessThan(_, _) => true
    case LessThanOrEqual(_, _) => true
    case In(_, vs) => forall i :: 0 <= i < |vs| ==> (vs[i].BytesValue? <==> vs[0].BytesValue?)
    case Not(c) => IsLiteralTest(c)
    case _ => false
  }

  ghost predicate KeepsMeaning(f: Filter) {
    forall row: Row :: Typed(f, row) ==> Eval(ExprOf(f), row) == SparkEval(f, row)
  }

  lemma {:induction false} TestLoses(f: Filter, schema: seq<string>) returns (row: Row)
    requires Translate(f, schema).Some? && IsLiteralTest(f) && !Utf8Literals(f)
    ensures Typed(f, row) && Eval(ExprOf(f), row) != SparkEval(f, row)
  {
    hide Utf8.Valid, FormatLiteral, Compared, Coerced, EngineValue, EngineValues, Literals, QuoteIdent, HasColumn, AnyEqual;
    var w: Value;
    match f
    case EqualTo(a, v) =>
      w := CompareLoses(a, Eq, v.bytes);
      row := OneColumn(w);
    case GreaterThan(a, v) =>
      w := CompareLoses(a, Gt, v.bytes);
      row := OneColumn(w);
    case GreaterThanOrEqual(a, v) =>
      w := CompareLoses(a, Ge, v.bytes);
      row := OneColumn(w);
    case LessThan(a, v) =>
      w := CompareLoses(a, Lt, v.bytes);
      row := OneColumn(w);
    case LessThanOrEqual(a, v) =>
      w := CompareLoses(a, Le, v.bytes);
      row := OneColumn(w);
    case In(a, vs) =>
      var i :| 0 <= i < |vs| && !IsUtf8(vs[i]);
      w := vs[i];
      row := OneColumn(w);
      LiteralsAll(vs);
      NoneEqual(w, vs);
      FoundIn(w, vs, i);
      assert row(a) == w;
    case Not(c) =>
      TranslatedIfDirect(c, schema);
      row := TestLoses(c, schema);
      NegatedEval(c, row);
  }

  /** A test with literals keeps its meaning on every row exactly when its literals of bytes are valid UTF-8. */
  lemma TestKeptIff(f: Filter, schema: seq<string>)
    requires Translate(f, schema).Some? && IsLiteralTest(f)
    ensures KeepsMeaning(f) <==> Utf8Literals(f)
  {
    hide Translate, IsLiteralTest, Typed, ExprOf, SparkEval, Eval, Utf8Literals;
    if Utf8Literals(f) {
      forall row: Row | Typed(f, row) ensures Eval(ExprOf(f), row) == SparkEval(f, row) { TranslatedMeaning(f, schema, row); }
    } else {
      var row := TestLoses(f, schema);
    }
  }
}
