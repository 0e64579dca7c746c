/** Filter expressions of the engine: their grammar (NOT over AND over OR), and their meaning in three-valued logic. */
module FilterExpr {
  import Aggregates
  import Dates
  import Thrift
  import Utf8

  /** A value; a decimal is its unscaled integer over ten to its scale, and `OtherValue` is one of any other type. */
  datatype Value =
    | NullValue
    | IntValue(n: int)
    | DecimalValue(unscaled: int, scale: int)
    | BoolValue(b: bool)
    | StringValue(s: string)
    | BytesValue(bytes: seq<Thrift.byte>)
    | DateValue(d: Dates.CalendarDate)
    | OtherValue(id: nat)

  /** A row, as the value of every column. */
  type Row = string -> Value

  datatype Truth = True | False | Unknown

  datatype Op = Eq | Ne | Gt | Ge | Lt | Le

  datatype Expr =
    | Compare(name: string, op: Op, value: Value)
    | IsNull(name: string)
    | IsNotNull(name: string)
    | InList(name: string, values: seq<Value>)
    | Like(name: string, pattern: string, negated: bool)
    | Not(e: Expr)
    | And(l: Expr, r: Expr)
    | Or(l: Expr, r: Expr)

  // ---- Meaning ----

  function Of(b: bool): Truth { if b then True else False }

  function Negation(t: Truth): Truth {
    match t
    case True => False
    case False => True
    case Unknown => Unknown
  }

  function Both(a: Truth, b: Truth): Truth {
    if a == False || b == False then False else if a == True && b == True then True else Unknown
  }

  function Either(a: Truth, b: Truth): Truth {
    Negation(Both(Negation(a), Negation(b)))
  }

  // ---- Comparing values ----

  function Pow10(n: nat): (r: nat)
    ensures r > 0
  {
    if n == 0 then 1 else 10 * Pow10(n - 1)
  }

  predicate IsNumber(v: Value) { v.IntValue? || v.DecimalValue? }

  function Number(v: Value): real
    requires IsNumber(v)
  {
    match v
    case IntValue(n) => n as real
    case DecimalValue(u, scale) =>
      if scale > 0 then u as real / Pow10(scale) as real else (u * Pow10(-scale)) as real
  }

  /** Bytes in order, as unsigned numbers, a prefix first. */
  predicate BytesLess(a: seq<Thrift.byte>, b: seq<Thrift.byte>) {
    b != [] && (a == [] || a[0] < b[0] || (a[0] == b[0] && BytesLess(a[1..], b[1..])))
  }

  predicate ValueSame(a: Value, b: Value) {
    if IsNumber(a) && IsNumber(b) then Number(a) == Number(b) else a == b
  }

  predicate ValueLess(a: Value, b: Value) {
    if IsNumber(a) && IsNumber(b) then Number(a) < Number(b)
    else
      match (a, b)
      case (BoolValue(x), BoolValue(y)) => !x && y
      case (StringValue(x), StringValue(y)) => Aggregates.TextLess(x, y)
      case (BytesValue(x), BytesValue(y)) => BytesLess(x, y)
      case (DateValue(x), DateValue(y)) => Dates.Earlier(x, y)
      case _ => false
  }

  predicate Related(op: Op, a: Value, b: Value) {
    match op
    case Eq => ValueSame(a, b)
    case Ne => !ValueSame(a, b)
    case Gt => ValueLess(b, a)
    case Ge => ValueSame(a, b) || ValueLess(b, a)
    case Lt => ValueLess(a, b)
    case Le => ValueSame(a, b) || ValueLess(a, b)
  }

  /** A comparison with a NULL on either side is unknown. */
  function Compared(op: Op, a: Value, b: Value): Truth {
    if a.NullValue? || b.NullValue? then Unknown else Of(Related(op, a, b))
  }

  /** `a` equals some value; unknown when none matches and a comparison was. */
  function AnyEqual(a: Value, values: seq<Value>): Truth {
    if values == [] then False else Either(Compared(Eq, a, values[0]), AnyEqual(a, values[1..]))
  }

  /** At the first difference `a` has the smaller byte, or has ended. */
  predicate BytesBefore(a: seq<Thrift.byte>, b: seq<Thrift.byte>) {
    exists k :: 0 <= k < |b| && k <= |a| && a[..k] == b[..k] && (k == |a| || a[k] < b[k])
  }

  lemma {:induction false} BytesLessIff(a: seq<Thrift.byte>, b: seq<Thrift.byte>)
    ensures BytesLess(a, b) <==> BytesBefore(a, b)
  {
    if a == [] || b == [] {
      if b != [] { assert a[..0] == b[..0]; }
    } else if a[0] != b[0] {
      assert a[..0] == b[..0];
      forall k | 0 < k < |b| && k <= |a| ensures a[..k] != b[..k] { assert a[..k][0] == a[0] && b[..k][0] == b[0]; }
    } else {
      BytesLessIff(a[1..], b[1..]);
      if k :| 0 <= k < |b[1..]| && k <= |a[1..]| && a[1..][..k] == b[1..][..k] && (k == |a[1..]| || a[1..][k] < b[1..][k]) {
        assert a[..k + 1] == [a[0]] + a[1..][..k] && b[..k + 1] == [b[0]] + b[1..][..k];
      }
      if k :| 0 <= k < |b| && k <= |a| && a[..k] == b[..k] && (k == |a| || a[k] < b[k]) {
        assert k > 0;
        assert a[1..][..k - 1] == a[..k][1..] && b[1..][..k - 1] == b[..k][1..];
        assert k - 1 == |a[1..]| || a[1..][k - 1] < b[1..][k - 1];
      }
    }
  }

  /** Unknown exactly with a NULL on either side; else the comparison of the numbers, texts, bytes or dates that the values are. */
  lemma ComparedMeans(a: Value, b: Value)
    ensures forall op: Op :: Compared(op, a, b) == Unknown <==> a == NullValue || b == NullValue
    ensures IsNumber(a) && IsNumber(b) ==>
      && (Compared(Eq, a, b) == True <==> Number(a) == Number(b)) && (Compared(Ne, a, b) == True <==> Number(a) != Number(b))
      && (Compared(Lt, a, b) == True <==> Number(a) < Number(b)) && (Compared(Le, a, b) == True <==> Number(a) <= Number(b))
      && (Compared(Gt, a, b) == True <==> Number(a) > Number(b)) && (Compared(Ge, a, b) == True <==> Number(a) >= Number(b))
    ensures a.BoolValue? && b.BoolValue? ==>
      && (Compared(Eq, a, b) == True <==> (a.b <==> b.b)) && (Compared(Lt, a, b) == True <==> !a.b && b.b)
    ensures a.StringValue? && b.StringValue? ==>
      && (Compared(Eq, a, b) == True <==> a.s == b.s) && (Compared(Ne, a, b) == True <==> a.s != b.s)
      && (Compared(Lt, a, b) == True <==> Aggregates.TextBefore(a.s, b.s))
      && (Compared(Gt, a, b) == True <==> Aggregates.TextBefore(b.s, a.s))
      && (Compared(Le, a, b) == True <==> a.s == b.s || Aggregates.TextBefore(a.s, b.s))
      && (Compared(Ge, a, b) == True <==> a.s == b.s || Aggregates.TextBefore(b.s, a.s))
    ensures a.BytesValue? && b.BytesValue? ==>
      && (Compared(Eq, a, b) == True <==> a.bytes == b.bytes) && (Compared(Ne, a, b) == True <==> a.bytes != b.bytes)
      && (Compared(Lt, a, b) == True <==> BytesBefore(a.bytes, b.bytes))
      && (Compared(Gt, a, b) == True <==> BytesBefore(b.bytes, a.bytes))
      && (Compared(Le, a, b) == True <==> a.bytes == b.bytes || BytesBefore(a.bytes, b.bytes))
      && (Compared(Ge, a, b) == True <==> a.bytes == b.bytes || BytesBefore(b.bytes, a.bytes))
    ensures a.DateValue? && b.DateValue? ==>
      && (Compared(Eq, a, b) == True <==> a.d == b.d) && (Compared(Ne, a, b) == True <==> a.d != b.d)
      && (Compared(Lt, a, b) == True <==> Day(a.d) < Day(b.d)) && (Compared(Le, a, b) == True <==> Day(a.d) <= Day(b.d))
      && (Compared(Gt, a, b) == True <==> Day(a.d) > Day(b.d)) && (Compared(Ge, a, b) == True <==> Day(a.d) >= Day(b.d))
  {
    hide Aggregates.TextLess, Aggregates.TextBefore, BytesLess, BytesBefore, Pow10;
    if a.BytesValue? && b.BytesValue? {
      BytesLessIff(a.bytes, b.bytes);
      BytesLessIff(b.bytes, a.bytes);
    }
    if a.StringValue? && b.StringValue? {
      Aggregates.TextLessIff(a.s, b.s);
      Aggregates.TextLessIff(b.s, a.s);
    }
  }

  /** Dates in one line: a month has at most 31 days, a year 12 months. */
  function Day(d: Dates.CalendarDate): int {
    (d.year * 12 + d.month) * 32 + d.day
  }

  /** A scale of one more is a tenth of the number; with scale 0 the number is the unscaled one. */
  lemma DecimalScale(u: int, scale: int)
    ensures Number(DecimalValue(u, 0)) == u as real
    ensures Number(DecimalValue(u, scale)) == 10.0 * Number(DecimalValue(u, scale + 1))
  {
    if scale >= 0 {
      TenthOf(u as real, Pow10(scale) as real);
    } else {
      var n := -scale - 1;
      assert Pow10(n + 1) == 10 * Pow10(n);
      TenTimes(u, Pow10(n));
    }
  }

  lemma TenthOf(x: real, p: real)
    requires p > 0.0
    ensures x / p == 10.0 * (x / (10.0 * p))
  {
    var q := x / (10.0 * p);
    assert x == q * (10.0 * p) == (10.0 * q) * p;
  }

  lemma TenTimes(u: int, p: int)
    ensures u * (10 * p) == 10 * (u * p)
  {
  }

  /** AND, OR and NOT of what is true, false or unknown: unknown only when another value for it would change the result. */
  lemma KleeneTables(a: Truth, b: Truth)
    ensures (Both(a, b) == True <==> a == True && b == True) && (Both(a, b) == False <==> a == False || b == False)
    ensures (Either(a, b) == True <==> a == True || b == True) && (Either(a, b) == False <==> a == False && b == False)
    ensures (Negation(a) == True <==> a == False) && (Negation(a) == False <==> a == True)
  {
  }

  /** An IN list holds when one of its values is equal, and fails when all of them are other values. */
  lemma {:induction false} AnyEqualMeans(a: Value, values: seq<Value>)
    ensures AnyEqual(a, values) == True <==> exists i :: 0 <= i < |values| && Compared(Eq, a, values[i]) == True
    ensures AnyEqual(a, values) == False <==> forall i :: 0 <= i < |values| ==> Compared(Eq, a, values[i]) == False
  {
    hide Compared;
    if values != [] {
      AnyEqualMeans(a, values[1..]);
      assert forall i :: 0 <= i < |values| - 1 ==> values[1..][i] == values[i + 1];
      assert forall i :: 0 < i < |values| ==> values[i] == values[1..][i - 1];
    }
  }

  /** What a quoted literal stands for beside a date or bytes: the date it is the text of, or the bytes of its text. */
  function Coerced(a: Value, v: Value): Value {
    if a.DateValue? && v.StringValue? && Dates.DateOf(v.s).Some? then DateValue(Dates.DateOf(v.s).value)
    else if a.BytesValue? && v.StringValue? then BytesValue(Utf8.Encode(v.s))
    else v
  }

  function CoercedAll(a: Value, values: seq<Value>): seq<Value> {
    if values == [] then [] else [Coerced(a, values[0])] + CoercedAll(a, values[1..])
  }

  /** `%` stands for any run of characters, `_` for one, and a backslash takes the next character as it is. */
  predicate Matches(pattern: string, s: string)
    decreases |pattern| + |s|
  {
    if pattern == [] then s == []
    else if pattern[0] == '%' then Matches(pattern[1..], s) || (s != [] && Matches(pattern, s[1..]))
    else if pattern[0] == '_' then s != [] && Matches(pattern[1..], s[1..])
    else if pattern[0] == '\\' && |pattern| > 1 then s != [] && s[0] == pattern[1] && Matches(pattern[2..], s[1..])
    else s != [] && s[0] == pattern[0] && Matches(pattern[1..], s[1..])
  }

  function Liked(a: Value, pattern: string): Truth {
    if a.NullValue? then Unknown else Of(a.StringValue? && Matches(pattern, a.s))
  }

  function Eval(e: Expr, row: Row): Truth {
    match e
    case Compare(name, op, value) => Compared(op, row(name), Coerced(row(name), value))
    case IsNull(name) => Of(row(name).NullValue?)
    case IsNotNull(name) => Of(!row(name).NullValue?)
    case InList(name, values) => AnyEqual(row(name), CoercedAll(row(name), values))
    case Like(name, pattern, negated) =>
      if negated then Negation(Liked(row(name), pattern)) else Liked(row(name), pattern)
    case Not(c) => Negation(Eval(c, row))
    case And(l, r) => Both(Eval(l, row), Eval(r, row))
    case Or(l, r) => Either(Eval(l, row), Eval(r, row))
  }

  // ---- Patterns without wildcards of their own ----

  predicate Plain(v: string) { '%' !in v && '_' !in v && '\\' !in v }

  predicate StartsWith(s: string, v: string) { |v| <= |s| && s[..|v|] == v }

  predicate EndsWith(s: string, v: string) { |v| <= |s| && s[|s| - |v|..] == v }

  predicate Contains(s: string, v: string) { exists i :: 0 <= i <= |s| && StartsWith(s[i..], v) }

  lemma {:induction false} MatchesAny(s: string)
    ensures Matches("%", s)
  {
    assert "%"[1..] == "";
    if s != [] { MatchesAny(s[1..]); }
  }

  lemma StartsUnfold(s: string, v: string)
    requires v != []
    ensures StartsWith(s, v) <==> s != [] && s[0] == v[0] && StartsWith(s[1..], v[1..])
  {
    if |v| <= |s| {
      assert s[..|v|][0] == s[0] && s[..|v|][1..] == s[1..][..|v| - 1];
      assert v == [v[0]] + v[1..] && s[..|v|] == [s[0]] + s[1..][..|v| - 1];
    }
  }

  /** A plain pattern followed by `more` matches a text that starts with it and goes on with a match of `more`. */
  lemma {:induction false} MatchesPlain(v: string, more: string, s: string)
    requires Plain(v)
    ensures Matches(v + more, s) <==> StartsWith(s, v) && Matches(more, s[|v|..])
  {
    if v == [] {
      assert v + more == more && s[0..] == s;
    } else {
      StartsUnfold(s, v);
      assert (v + more)[0] == v[0] && (v + more)[1..] == v[1..] + more;
      assert v[0] in v;
      if s != [] && s[0] == v[0] {
        MatchesPlain(v[1..], more, s[1..]);
        if |v| <= |s| { assert s[1..][|v| - 1..] == s[|v|..]; }
      }
    }
  }

  /** `%` before a pattern: some end of the text matches it. */
  lemma {:induction false} MatchesAfterAny(pattern: string, s: string)
    ensures Matches("%" + pattern, s) <==> exists i :: 0 <= i <= |s| && Matches(pattern, s[i..])
  {
    var p := "%" + pattern;
    assert p[1..] == pattern && s[0..] == s;
    if s != [] {
      MatchesAfterAny(pattern, s[1..]);
      forall i | 1 <= i <= |s| ensures s[1..][i - 1..] == s[i..] {}
      if Matches(p, s[1..]) {
        var i :| 0 <= i <= |s[1..]| && Matches(pattern, s[1..][i..]);
        assert s[1..][i..] == s[i + 1..];
      }
      if i :| 0 <= i <= |s| && Matches(pattern, s[i..]) {
        if i > 0 { assert s[1..][i - 1..] == s[i..]; }
      }
    }
  }

  lemma StartsWithIsLike(s: string, v: string)
    requires Plain(v)
    ensures Matches(v + "%", s) <==> StartsWith(s, v)
  {
    MatchesPlain(v, "%", s);
    if |v| <= |s| { MatchesAny(s[|v|..]); }
  }

  lemma EndsWithIsLike(s: string, v: string)
    requires Plain(v)
    ensures Matches("%" + v, s) <==> EndsWith(s, v)
  {
    MatchesAfterAny(v, s);
    assert v + "" == v;
    forall i | 0 <= i <= |s| ensures Matches(v, s[i..]) <==> s[i..] == v {
      MatchesPlain(v, "", s[i..]);
      if StartsWith(s[i..], v) && s[i..][|v|..] == "" { assert s[i..] == s[i..][..|v|]; }
    }
  }

  lemma ContainsIsLike(s: string, v: string)
    requires Plain(v)
    ensures Matches("%" + v + "%", s) <==> Contains(s, v)
  {
    MatchesAfterAny(v + "%", s);
    assert "%" + (v + "%") == "%" + v + "%";
    forall i | 0 <= i <= |s| ensures Matches(v + "%", s[i..]) <==> StartsWith(s[i..], v) { StartsWithIsLike(s[i..], v); }
  }
}
