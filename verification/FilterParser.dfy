/** Writing filter expressions as tokens, and the reference parser that reads them back: NOT binds over AND over OR. */
module FilterParser {
  import opened Options
  import opened SqlText
  import opened FilterExpr
  import Slices

  // ---- Writing ----

  function OpText(op: Op): string {
    match op
    case Eq => "="
    case Ne => "!="
    case Gt => ">"
    case Ge => ">="
    case Lt => "<"
    case Le => "<="
  }

  function Literal(v: Value): Token {
    match v
    case IntValue(n) => Int(n)
    case DecimalValue(u, scale) => if scale > 0 then Dec(u, scale) else Word("NULL")
    case BoolValue(b) => Word(if b then "true" else "false")
    case StringValue(s) => Str(s)
    case _ => Word("NULL")
  }

  function ListTokens(values: seq<Value>): seq<Token> {
    if values == [] then []
    else if |values| == 1 then [Literal(values[0])]
    else [Literal(values[0]), Sym(",")] + ListTokens(values[1..])
  }

  function Show(e: Expr): seq<Token> {
    match e
    case Compare(name, op, value) => [Name(name), Sym(OpText(op)), Literal(value)]
    case IsNull(name) => [Name(name), Word("IS"), Word("NULL")]
    case IsNotNull(name) => [Name(name), Word("IS"), Word("NOT"), Word("NULL")]
    case InList(name, values) => [Name(name), Word("IN"), Sym("(")] + ListTokens(values) + [Sym(")")]
    case Like(name, pattern, negated) => [Name(name)] + (if negated then [Word("NOT")] else []) + [Word("LIKE"), Str(pattern)]
    case Not(c) => [Word("NOT"), Sym("(")] + Show(c) + [Sym(")")]
    case And(l, r) => [Sym("(")] + Show(l) + [Word("AND")] + Show(r) + [Sym(")")]
    case Or(l, r) => [Sym("(")] + Show(l) + [Word("OR")] + Show(r) + [Sym(")")]
  }

  // ---- Reading ----

  datatype Parsed<T> = Parsed(v: T, rest: seq<Token>) | Failed

  function OpOf(y: string): Option<Op> {
    if y == "=" then Some(Eq)
    else if y == "!=" then Some(Ne)
    else if y == ">" then Some(Gt)
    else if y == ">=" then Some(Ge)
    else if y == "<" then Some(Lt)
    else if y == "<=" then Some(Le)
    else None
  }

  function LiteralOf(t: Token): Option<Value> {
    match t
    case Int(n) => Some(IntValue(n))
    case Dec(u, scale) => Some(DecimalValue(u, scale))
    case Str(s) => Some(StringValue(s))
    case Word(w) =>
      if w == "true" then Some(BoolValue(true))
      else if w == "false" then Some(BoolValue(false))
      else None
    case _ => None
  }

  /** Literals separated by commas, up to the closing parenthesis. */
  function ParseList(ts: seq<Token>): (r: Parsed<seq<Value>>)
    ensures r.Parsed? ==> |r.rest| < |ts|
  {
    if |ts| < 2 || LiteralOf(ts[0]).None? then Failed
    else if ts[1] == Sym(")") then Parsed([LiteralOf(ts[0]).value], ts[2..])
    else if ts[1] == Sym(",") then
      match ParseList(ts[2..])
      case Parsed(more, rest) => Parsed([LiteralOf(ts[0]).value] + more, rest)
      case Failed => Failed
    else Failed
  }

  /** What follows a column name. */
  function ParseTest(name: string, ts: seq<Token>): (r: Parsed<Expr>)
    ensures r.Parsed? ==> |r.rest| < |ts|
  {
    if |ts| >= 2 && ts[0].Sym? && OpOf(ts[0].y).Some? && LiteralOf(ts[1]).Some? then
      Parsed(Compare(name, OpOf(ts[0].y).value, LiteralOf(ts[1]).value), ts[2..])
    else if |ts| >= 2 && ts[0] == Word("IS") && ts[1] == Word("NULL") then Parsed(IsNull(name), ts[2..])
    else if |ts| >= 3 && ts[0] == Word("IS") && ts[1] == Word("NOT") && ts[2] == Word("NULL") then
      Parsed(IsNotNull(name), ts[3..])
    else if |ts| >= 2 && ts[0] == Word("IN") && ts[1] == Sym("(") then
      match ParseList(ts[2..])
      case Parsed(values, rest) => Parsed(InList(name, values), rest)
      case Failed => Failed
    else if |ts| >= 2 && ts[0] == Word("LIKE") && ts[1].Str? then Parsed(Like(name, ts[1].s, false), ts[2..])
    else if |ts| >= 3 && ts[0] == Word("NOT") && ts[1] == Word("LIKE") && ts[2].Str? then
      Parsed(Like(name, ts[2].s, true), ts[3..])
    else Failed
  }

  function ParseNot(ts: seq<Token>): (r: Parsed<Expr>)
    ensures r.Parsed? ==> |r.rest| < |ts|
    decreases |ts|, 0
  {
    if ts == [] then Failed
    else if ts[0] == Word("NOT") then
      match ParseNot(ts[1..])
      case Parsed(e, rest) => Parsed(Not(e), rest)
      case Failed => Failed
    else if ts[0] == Sym("(") then
      match ParseOr(ts[1..])
      case Parsed(e, rest) => if rest != [] && rest[0] == Sym(")") then Parsed(e, rest[1..]) else Failed
      case Failed => Failed
    else if ts[0].Name? then ParseTest(ts[0].s, ts[1..])
    else Failed
  }

  function MoreAnd(l: Expr, ts: seq<Token>): (r: Parsed<Expr>)
    ensures r.Parsed? ==> |r.rest| <= |ts|
    decreases |ts|, 0
  {
    if ts == [] || ts[0] != Word("AND") then Parsed(l, ts)
    else
      match ParseNot(ts[1..])
      case Parsed(e, rest) => MoreAnd(And(l, e), rest)
      case Failed => Failed
  }

  function ParseAnd(ts: seq<Token>): (r: Parsed<Expr>)
    ensures r.Parsed? ==> |r.rest| < |ts|
    decreases |ts|, 1
  {
    match ParseNot(ts)
    case Parsed(e, rest) => MoreAnd(e, rest)
    case Failed => Failed
  }

  function MoreOr(l: Expr, ts: seq<Token>): (r: Parsed<Expr>)
    ensures r.Parsed? ==> |r.rest| <= |ts|
    decreases |ts|, 1
  {
    if ts == [] || ts[0] != Word("OR") then Parsed(l, ts)
    else
      match ParseAnd(ts[1..])
      case Parsed(e, rest) => MoreOr(Or(l, e), rest)
      case Failed => Failed
  }

  function ParseOr(ts: seq<Token>): (r: Parsed<Expr>)
    ensures r.Parsed? ==> |r.rest| < |ts|
    decreases |ts|, 2
  {
    match ParseAnd(ts)
    case Parsed(e, rest) => MoreOr(e, rest)
    case Failed => Failed
  }

  /** The expression a filter text stands for. */
  function Meant(text: string): Option<Expr> {
    match Lex(text)
    case None => None
    case Some(ts) =>
      match ParseOr(ts)
      case Failed => None
      case Parsed(e, rest) => if rest == [] then Some(e) else None
  }

  // ---- Round trip ----

  predicate HasLiteral(v: Value) {
    match v
    case IntValue(_) => true
    case DecimalValue(_, scale) => scale > 0
    case BoolValue(_) => true
    case StringValue(_) => true
    case _ => false
  }

  predicate Writable(e: Expr) {
    match e
    case Compare(_, _, value) => HasLiteral(value)
    case InList(_, values) => values != [] && forall i :: 0 <= i < |values| ==> HasLiteral(values[i])
    case Not(c) => Writable(c)
    case And(l, r) => Writable(l) && Writable(r)
    case Or(l, r) => Writable(l) && Writable(r)
    case _ => true
  }

  lemma LiteralRoundTrip(v: Value)
    requires HasLiteral(v)
    ensures LiteralOf(Literal(v)) == Some(v) && Proper(Literal(v))
  {
  }

  lemma OpRoundTrip(op: Op)
    ensures OpOf(OpText(op)) == Some(op) && OpText(op) in SYMBOLS
  {
  }

  lemma ParseListMore(v: Value, more: seq<Token>, values: seq<Value>, rest: seq<Token>)
    requires HasLiteral(v) && ParseList(more) == Parsed(values, rest)
    ensures ParseList([Literal(v), Sym(",")] + more) == Parsed([v] + values, rest)
  {
    LiteralRoundTrip(v);
    assert ([Literal(v), Sym(",")] + more)[2..] == more;
  }

  lemma ParseListLast(v: Value, rest: seq<Token>)
    requires HasLiteral(v)
    ensures ParseList([Literal(v), Sym(")")] + rest) == Parsed([v], rest)
  {
    LiteralRoundTrip(v);
    assert ([Literal(v), Sym(")")] + rest)[2..] == rest;
  }

  lemma {:induction false} ListRoundTrip(values: seq<Value>, rest: seq<Token>)
    requires values != [] && forall i :: 0 <= i < |values| ==> HasLiteral(values[i])
    ensures ParseList(ListTokens(values) + ([Sym(")")] + rest)) == Parsed(values, rest)
  {
    hide ParseList, Literal;
    if |values| == 1 {
      ParseListLast(values[0], rest);
      assert [Literal(values[0])] + ([Sym(")")] + rest) == [Literal(values[0]), Sym(")")] + rest;
      assert values == [values[0]];
    } else {
      var tail := values[1..];
      ListRoundTrip(tail, rest);
      ParseListMore(values[0], ListTokens(tail) + ([Sym(")")] + rest), tail, rest);
      Slices.Assoc([Literal(values[0]), Sym(",")], ListTokens(tail), [Sym(")")] + rest);
      assert [values[0]] + tail == values;
    }
  }

  /** A test after its column name. */
  lemma TestRoundTrip(e: Expr, rest: seq<Token>)
    requires Writable(e) && !e.Not? && !e.And? && !e.Or?
    ensures Show(e) != [] && Show(e)[0] == Name(e.name)
    ensures ParseTest(e.name, Show(e)[1..] + rest) == Parsed(e, rest)
  {
    hide ParseList, LiteralOf, Literal, ListTokens, OpOf, OpText, ParseTest, HasLiteral;
    var ts := Show(e)[1..];
    match e
    case Compare(_, _, _) => CompareRoundTrip(e.name, e.op, e.value, rest);
    case InList(_, _) => InRoundTrip(e.name, e.values, rest);
    case _ => KeywordRoundTrip(e, rest);
  }

  lemma CompareRoundTrip(name: string, op: Op, value: Value, rest: seq<Token>)
    requires HasLiteral(value)
    ensures Show(Compare(name, op, value))[1..] == [Sym(OpText(op)), Literal(value)]
    ensures ParseTest(name, [Sym(OpText(op)), Literal(value)] + rest) == Parsed(Compare(name, op, value), rest)
  {
    hide LiteralOf, Literal, OpOf, OpText;
    OpRoundTrip(op);
    LiteralRoundTrip(value);
    assert ([Sym(OpText(op)), Literal(value)] + rest)[2..] == rest;
  }

  lemma InRoundTrip(name: string, values: seq<Value>, rest: seq<Token>)
    requires Writable(InList(name, values))
    ensures ParseTest(name, Show(InList(name, values))[1..] + rest) == Parsed(InList(name, values), rest)
  {
    hide ParseList, LiteralOf, ListTokens;
    ListRoundTrip(values, rest);
    var more := ListTokens(values) + ([Sym(")")] + rest);
    assert Show(InList(name, values))[1..] + rest == [Word("IN"), Sym("(")] + more;
    assert ([Word("IN"), Sym("(")] + more)[2..] == more;
  }

  lemma KeywordRoundTrip(e: Expr, rest: seq<Token>)
    requires e.IsNull? || e.IsNotNull? || e.Like?
    ensures ParseTest(e.name, Show(e)[1..] + rest) == Parsed(e, rest)
  {
    hide ParseList, LiteralOf, OpOf;
    var ts := Show(e)[1..] + rest;
    match e
    case IsNull(_) => assert ts == [Word("IS"), Word("NULL")] + rest;
    case IsNotNull(_) => assert ts == [Word("IS"), Word("NOT"), Word("NULL")] + rest;
    case Like(_, pattern, negated) =>
      assert ts == (if negated then [Word("NOT"), Word("LIKE"), Str(pattern)] else [Word("LIKE"), Str(pattern)]) + rest;
  }

  lemma ParseNotOfName(name: string, ts: seq<Token>)
    ensures ParseNot([Name(name)] + ts) == ParseTest(name, ts)
  {
    assert ([Name(name)] + ts)[1..] == ts;
  }

  lemma ParseNotOfNot(ts: seq<Token>, e: Expr, rest: seq<Token>)
    requires ParseNot(ts) == Parsed(e, rest)
    ensures ParseNot([Word("NOT")] + ts) == Parsed(Not(e), rest)
  {
    assert ([Word("NOT")] + ts)[1..] == ts;
  }

  lemma ParseNotOfParen(ts: seq<Token>, e: Expr, rest: seq<Token>)
    requires ParseOr(ts) == Parsed(e, [Sym(")")] + rest)
    ensures ParseNot([Sym("(")] + ts) == Parsed(e, rest)
  {
    assert ([Sym("(")] + ts)[1..] == ts;
    assert ([Sym(")")] + rest)[1..] == rest;
  }

  predicate Stops(rest: seq<Token>) {
    rest == [] || rest[0] == Sym(")")
  }

  /** One operand and nothing to join it with. */
  lemma ParseOrOfOne(ts: seq<Token>, e: Expr, rest: seq<Token>)
    requires ParseNot(ts) == Parsed(e, rest) && Stops(rest)
    ensures ParseOr(ts) == Parsed(e, rest)
  {
    assert MoreAnd(e, rest) == Parsed(e, rest);
    assert ParseAnd(ts) == Parsed(e, rest);
    assert MoreOr(e, rest) == Parsed(e, rest);
  }

  lemma ParseOrOfAnd(ts: seq<Token>, l: Expr, more: seq<Token>, r: Expr, rest: seq<Token>)
    requires ParseNot(ts) == Parsed(l, [Word("AND")] + more) && ParseNot(more) == Parsed(r, rest) && Stops(rest)
    ensures ParseOr(ts) == Parsed(And(l, r), rest)
  {
    assert ([Word("AND")] + more)[1..] == more;
    assert MoreAnd(And(l, r), rest) == Parsed(And(l, r), rest);
    assert MoreAnd(l, [Word("AND")] + more) == MoreAnd(And(l, r), rest);
  }

  lemma ParseOrOfOr(ts: seq<Token>, l: Expr, more: seq<Token>, r: Expr, rest: seq<Token>)
    requires ParseNot(ts) == Parsed(l, [Word("OR")] + more) && ParseNot(more) == Parsed(r, rest) && Stops(rest)
    ensures ParseOr(ts) == Parsed(Or(l, r), rest)
  {
    var t := [Word("OR")] + more;
    assert t[1..] == more;
    assert MoreAnd(l, t) == Parsed(l, t);
    assert ParseAnd(ts) == Parsed(l, t);
    assert ParseAnd(more) == Parsed(r, rest);
    assert MoreOr(Or(l, r), rest) == Parsed(Or(l, r), rest);
    assert MoreOr(l, t) == MoreOr(Or(l, r), rest);
  }

  lemma NotRoundTrip(c: Expr, rest: seq<Token>)
    requires ParseNot(Show(c) + ([Sym(")")] + rest)) == Parsed(c, [Sym(")")] + rest)
    ensures ParseNot(Show(Not(c)) + rest) == Parsed(Not(c), rest)
  {
    hide ParseNot, ParseOr;
    var inner := Show(c) + ([Sym(")")] + rest);
    ParseOrOfOne(inner, c, [Sym(")")] + rest);
    ParseNotOfParen(inner, c, rest);
    ParseNotOfNot([Sym("(")] + inner, c, rest);
    assert [Word("NOT")] + ([Sym("(")] + inner) == Show(Not(c)) + rest;
  }

  /** The tokens of `l word r)` and what follows. */
  function Pair(l: Expr, word: Token, r: Expr, rest: seq<Token>): seq<Token> {
    Show(l) + ([word] + (Show(r) + ([Sym(")")] + rest)))
  }

  lemma PairShown(l: Expr, word: Token, r: Expr, rest: seq<Token>)
    ensures [Sym("(")] + Pair(l, word, r, rest) == [Sym("(")] + Show(l) + [word] + Show(r) + [Sym(")")] + rest
  {
    hide Show;
  }

  lemma JoinRoundTrip(l: Expr, r: Expr, rest: seq<Token>, both: bool)
    requires var word := if both then Word("AND") else Word("OR");
             ParseNot(Pair(l, word, r, rest)) == Parsed(l, [word] + (Show(r) + ([Sym(")")] + rest)))
    requires ParseNot(Show(r) + ([Sym(")")] + rest)) == Parsed(r, [Sym(")")] + rest)
    ensures ParseNot(Show(if both then And(l, r) else Or(l, r)) + rest) == Parsed(if both then And(l, r) else Or(l, r), rest)
  {
    hide ParseNot, ParseOr;
    var word := if both then Word("AND") else Word("OR");
    var more := Show(r) + ([Sym(")")] + rest);
    if both {
      ParseOrOfAnd(Pair(l, word, r, rest), l, more, r, [Sym(")")] + rest);
    } else {
      ParseOrOfOr(Pair(l, word, r, rest), l, more, r, [Sym(")")] + rest);
    }
    ParseNotOfParen(Pair(l, word, r, rest), if both then And(l, r) else Or(l, r), rest);
    PairShown(l, word, r, rest);
  }

  lemma TestShown(e: Expr, rest: seq<Token>)
    requires Writable(e) && !e.Not? && !e.And? && !e.Or?
    ensures ParseNot(Show(e) + rest) == Parsed(e, rest)
  {
    hide ParseNot, ParseTest;
    TestRoundTrip(e, rest);
    ParseNotOfName(e.name, Show(e)[1..] + rest);
    assert [Name(e.name)] + (Show(e)[1..] + rest) == Show(e) + rest;
  }

  /** Reading a written expression, whatever follows it, gives the expression back and leaves what follows. */
  lemma {:induction false} ShowRoundTrip(e: Expr, rest: seq<Token>)
    requires Writable(e)
    ensures ParseNot(Show(e) + rest) == Parsed(e, rest)
  {
    hide ParseNot, Show;
    match e
    case Not(c) =>
      ShowRoundTrip(c, [Sym(")")] + rest);
      NotRoundTrip(c, rest);
    case And(l, r) =>
      ShowRoundTrip(r, [Sym(")")] + rest);
      ShowRoundTrip(l, [Word("AND")] + (Show(r) + ([Sym(")")] + rest)));
      JoinRoundTrip(l, r, rest, true);
    case Or(l, r) =>
      ShowRoundTrip(r, [Sym(")")] + rest);
      ShowRoundTrip(l, [Word("OR")] + (Show(r) + ([Sym(")")] + rest)));
      JoinRoundTrip(l, r, rest, false);
    case _ => TestShown(e, rest);
  }
}
