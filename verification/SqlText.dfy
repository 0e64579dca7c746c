/** The tokens of SQL expression text: how they are written, and a reader that splits text into them again. Quotes
    are escaped by doubling, and neighbours are set apart as the translator does it. */
module SqlText {
  import opened Options
  import Slices

  /** A quoted name, a quoted text, an integer, a number with decimals, a keyword, or a symbol. */
  datatype Token =
    | Name(s: string)
    | Str(s: string)
    | Int(n: int)
    | Dec(unscaled: int, scale: nat)
    | Word(w: string)
    | Sym(y: string)

  const SYMBOLS := {"(", ")", ",", "=", "!=", "<", "<=", ">", ">="}

  predicate IsDigit(c: char) { '0' <= c <= '9' }

  predicate IsLetter(c: char) { 'A' <= c <= 'Z' || 'a' <= c <= 'z' || c == '_' }

  predicate IsWordChar(c: char) { IsLetter(c) || IsDigit(c) }

  // ---- Quoting by doubling ----

  function Doubled(s: string, quote: char): string {
    if s == [] then [] else (if s[0] == quote then [quote, quote] else [s[0]]) + Doubled(s[1..], quote)
  }

  /** The source's `sqlQuoted`: the quote doubled inside, and added at both ends. */
  function Quoted(s: string, quote: char): string {
    [quote] + Doubled(s, quote) + [quote]
  }

  datatype Read<T> = Got(v: T, rest: string) | Bad

  /** The text up to the quote that ends it; a doubled quote stands for one. */
  function ReadQuoted(t: string, quote: char): (r: Read<string>)
    ensures r.Got? ==> |r.rest| < |t|
  {
    if t == [] then Bad
    else if t[0] == quote then
      if |t| > 1 && t[1] == quote then
        match ReadQuoted(t[2..], quote)
        case Got(v, rest) => Got([quote] + v, rest)
        case Bad => Bad
      else Got([], t[1..])
    else
      match ReadQuoted(t[1..], quote)
      case Got(v, rest) => Got([t[0]] + v, rest)
      case Bad => Bad
  }

  /** Every text written with its quotes doubled is read back, up to whatever follows that is not the quote again. */
  lemma {:induction false} QuotedRoundTrip(s: string, quote: char, rest: string)
    requires rest != [] ==> rest[0] != quote
    ensures ReadQuoted(Doubled(s, quote) + [quote] + rest, quote) == Got(s, rest)
  {
    if s == [] {
      assert Doubled(s, quote) + [quote] + rest == [quote] + rest;
    } else {
      var more := Doubled(s[1..], quote) + [quote] + rest;
      QuotedRoundTrip(s[1..], quote, rest);
      if s[0] == quote {
        assert Doubled(s, quote) + [quote] + rest == [quote, quote] + more;
        assert ([quote, quote] + more)[2..] == more;
      } else {
        assert Doubled(s, quote) + [quote] + rest == [s[0]] + more;
      }
      assert [s[0]] + s[1..] == s;
    }
  }

  /** A text without the quote is its own doubling. */
  lemma {:induction false} NothingToDouble(s: string, quote: char)
    requires quote !in s
    ensures Doubled(s, quote) == s
  {
    if s != [] {
      NothingToDouble(s[1..], quote);
      assert [s[0]] + s[1..] == s;
    }
  }

  // ---- Integers ----

  function Digit(d: nat): char
    requires d < 10
  {
    '0' + d as char
  }

  function Digits(n: nat): (s: string)
    ensures s != [] && forall i :: 0 <= i < |s| ==> IsDigit(s[i])
  {
    if n < 10 then [Digit(n)] else Digits(n / 10) + [Digit(n % 10)]
  }

  function IntText(n: int): string {
    if n < 0 then "-" + Digits(-n) else Digits(n)
  }

  /** The number that a run of digits continues, and what follows the run. */
  function ReadDigits(t: string, n: nat): (r: Read<nat>)
    ensures r.Got? && |r.rest| <= |t|
  {
    if t == [] || !IsDigit(t[0]) then Got(n, t)
    else ReadDigits(t[1..], 10 * n + (t[0] - '0') as nat)
  }

  predicate NoDigitFirst(t: string) { t == [] || !IsDigit(t[0]) }

  /** A run read to its end goes on with whatever follows it. */
  lemma {:induction false} ReadDigitsOn(s: string, rest: string, n: nat, m: nat)
    requires (forall i :: 0 <= i < |s| ==> IsDigit(s[i])) && ReadDigits(s, n) == Got(m, [])
    ensures ReadDigits(s + rest, n) == ReadDigits(rest, m)
  {
    if s == [] {
      assert s + rest == rest;
    } else {
      ReadDigitsOn(s[1..], rest, 10 * n + (s[0] - '0') as nat, m);
      assert (s + rest)[1..] == s[1..] + rest;
    }
  }

  lemma {:induction false} DigitsRoundTrip(n: nat, rest: string)
    requires NoDigitFirst(rest)
    ensures ReadDigits(Digits(n) + rest, 0) == Got(n, rest)
  {
    if n < 10 {
      assert ([Digit(n)] + rest)[1..] == rest;
    } else {
      DigitsRoundTrip(n / 10, []);
      assert Digits(n / 10) + [] == Digits(n / 10);
      var last := [Digit(n % 10)] + rest;
      ReadDigitsOn(Digits(n / 10), last, 0, n / 10);
      assert Digits(n) + rest == Digits(n / 10) + last;
      assert last[1..] == rest;
    }
  }

  // ---- Numbers with decimals ----

  function Zeros(k: nat): string { seq(k, _ => '0') }

  /** At least `width` digits, zeros before the number's own. */
  function Padded(n: nat, width: nat): (s: string)
    ensures |s| >= width && s != [] && forall i :: 0 <= i < |s| ==> IsDigit(s[i])
  {
    var d := Digits(n);
    if |d| >= width then d else Zeros(width - |d|) + d
  }

  /** The digits with a point before the last `scale` of them, and at least one before the point. */
  function PointText(n: nat, scale: nat): string
    requires scale > 0
  {
    var p := Padded(n, scale + 1);
    p[..|p| - scale] + ("." + p[|p| - scale..])
  }

  function DecimalText(unscaled: int, scale: nat): string {
    if scale == 0 then IntText(unscaled)
    else if unscaled < 0 then "-" + PointText(-unscaled, scale)
    else PointText(unscaled, scale)
  }

  lemma {:induction false} ReadZeros(k: nat, s: string)
    ensures ReadDigits(Zeros(k) + s, 0) == ReadDigits(s, 0)
  {
    if k == 0 {
      assert Zeros(k) + s == s;
    } else {
      ReadZeros(k - 1, s);
      assert (Zeros(k) + s)[1..] == Zeros(k - 1) + s;
    }
  }

  lemma PaddedRead(n: nat, width: nat)
    ensures ReadDigits(Padded(n, width), 0) == Got(n, [])
  {
    DigitsRoundTrip(n, []);
    assert Digits(n) + [] == Digits(n);
    if |Digits(n)| < width { ReadZeros(width - |Digits(n)|, Digits(n)); }
  }

  lemma {:induction false} AllRead(s: string, n: nat)
    requires forall i :: 0 <= i < |s| ==> IsDigit(s[i])
    ensures ReadDigits(s, n).rest == []
  {
    if s != [] { AllRead(s[1..], 10 * n + (s[0] - '0') as nat); }
  }

  /** A number without a sign: digits, and decimals after a point. */
  function ReadNumeral(t: string): (r: Read<Token>)
    requires t != [] && IsDigit(t[0])
    ensures r.Got? && |r.rest| < |t| && (r.v.Int? || r.v.Dec?)
  {
    var whole := ReadDigits(t, 0);
    assert whole == ReadDigits(t[1..], (t[0] - '0') as nat);
    if |whole.rest| > 1 && whole.rest[0] == '.' && IsDigit(whole.rest[1]) then
      var all := ReadDigits(whole.rest[1..], whole.v);
      Got(Dec(all.v, |whole.rest| - 1 - |all.rest|), all.rest)
    else Got(Int(whole.v), whole.rest)
  }

  function Negated(t: Token): Token {
    match t
    case Int(n) => Int(-n)
    case Dec(u, scale) => Dec(-u, scale)
    case _ => t
  }

  lemma PointRoundTrip(n: nat, scale: nat, rest: string)
    requires scale > 0 && NoDigitFirst(rest)
    ensures PointText(n, scale) != [] && IsDigit(PointText(n, scale)[0])
    ensures ReadNumeral(PointText(n, scale) + rest) == Got(Dec(n, scale), rest)
  {
    hide ReadDigits, Padded;
    var p := Padded(n, scale + 1);
    var a, b := p[..|p| - scale], p[|p| - scale..];
    PaddedRead(n, scale + 1);
    AllRead(a, 0);
    var x := ReadDigits(a, 0).v;
    var tail := "." + (b + rest);
    ReadDigitsOn(a, tail, 0, x);
    ReadDigitsOn(a, b, 0, x);
    assert a + b == p;
    ReadDigitsOn(b, rest, x, n);
    NoMoreDigits(tail, x);
    NoMoreDigits(rest, n);
    assert PointText(n, scale) + rest == a + tail;
    assert tail[1..] == b + rest && tail[1] == b[0];
  }

  lemma NoMoreDigits(t: string, n: nat)
    requires NoDigitFirst(t)
    ensures ReadDigits(t, n) == Got(n, t)
  {
  }

  // ---- Tokens ----

  function Text(t: Token): string {
    match t
    case Name(s) => Quoted(s, '"')
    case Str(s) => Quoted(s, '\'')
    case Int(n) => IntText(n)
    case Dec(u, scale) => DecimalText(u, scale)
    case Word(w) => w
    case Sym(y) => y
  }

  /** Tokens the reader can give back. */
  predicate Proper(t: Token) {
    match t
    case Word(w) => w != [] && IsLetter(w[0]) && forall i :: 0 <= i < |w| ==> IsWordChar(w[i])
    case Sym(y) => y in SYMBOLS
    case Dec(_, scale) => scale > 0
    case _ => true
  }

  function ReadWord(t: string): (r: Read<string>)
    ensures r.Got? && |r.v| + |r.rest| == |t|
  {
    if t == [] || !IsWordChar(t[0]) then Got([], t)
    else
      var more := ReadWord(t[1..]);
      Got([t[0]] + more.v, more.rest)
  }

  lemma {:induction false} WordRoundTrip(w: string, rest: string)
    requires forall i :: 0 <= i < |w| ==> IsWordChar(w[i])
    requires rest == [] || !IsWordChar(rest[0])
    ensures ReadWord(w + rest) == Got(w, rest)
  {
    if w == [] {
      assert w + rest == rest;
    } else {
      WordRoundTrip(w[1..], rest);
      assert (w + rest)[1..] == w[1..] + rest;
      assert [w[0]] + w[1..] == w;
    }
  }

  function ReadSymbol(t: string): (r: Read<Token>)
    requires t != []
    ensures r.Got? ==> |r.rest| < |t|
  {
    if |t| > 1 && t[1] == '=' && (t[0] == '!' || t[0] == '<' || t[0] == '>') then Got(Sym(t[..2]), t[2..])
    else if [t[0]] in SYMBOLS then Got(Sym([t[0]]), t[1..])
    else Bad
  }

  /** The first token of a text that does not start with a space. */
  function ReadToken(t: string): (r: Read<Token>)
    requires t != []
    ensures r.Got? ==> |r.rest| < |t|
  {
    if t[0] == '"' || t[0] == '\'' then
      match ReadQuoted(t[1..], t[0])
      case Got(s, rest) => Got(if t[0] == '"' then Name(s) else Str(s), rest)
      case Bad => Bad
    else if IsDigit(t[0]) then ReadNumeral(t)
    else if t[0] == '-' && |t| > 1 && IsDigit(t[1]) then
      var d := ReadNumeral(t[1..]);
      Got(Negated(d.v), d.rest)
    else if IsLetter(t[0]) then
      var w := ReadWord(t);
      Got(Word(w.v), w.rest)
    else ReadSymbol(t)
  }

  /** All tokens of a text, spaces between them skipped. */
  function Lex(t: string): Option<seq<Token>>
    decreases |t|
  {
    if t == [] then Some([])
    else if t[0] == ' ' then Lex(t[1..])
    else
      match ReadToken(t)
      case Bad => None
      case Got(tok, rest) =>
        match Lex(rest)
        case None => None
        case Some(more) => Some([tok] + more)
  }

  /** `rest` does not continue the token before it. */
  predicate Ends(t: Token, rest: string) {
    rest == [] ||
    match t
    case Name(_) => rest[0] != '"'
    case Str(_) => rest[0] != '\''
    case Int(_) => !IsDigit(rest[0]) && rest[0] != '.'
    case Dec(_, _) => !IsDigit(rest[0])
    case Word(_) => !IsWordChar(rest[0])
    case Sym(y) => y == "<" || y == ">" ==> rest[0] != '='
  }

  lemma TokenRoundTrip(t: Token, rest: string)
    requires Proper(t) && Ends(t, rest)
    ensures Text(t) != [] && Text(t)[0] != ' '
    ensures ReadToken(Text(t) + rest) == Got(t, rest)
  {
    hide ReadToken, ReadSymbol, IntText, DecimalText, Quoted;
    match t
    case Name(s) => QuotedToken(s, '"', rest);
    case Str(s) => QuotedToken(s, '\'', rest);
    case Int(n) => IntRoundTrip(n, rest);
    case Dec(u, scale) => DecimalRoundTrip(u, scale, rest);
    case Word(w) => WordToken(w, rest);
    case Sym(y) => SymbolRoundTrip(y, rest);
  }

  lemma QuotedToken(s: string, quote: char, rest: string)
    requires (quote == '"' || quote == '\'') && (rest != [] ==> rest[0] != quote)
    ensures Quoted(s, quote) != [] && Quoted(s, quote)[0] != ' '
    ensures ReadToken(Quoted(s, quote) + rest) == Got(if quote == '"' then Name(s) else Str(s), rest)
  {
    QuotedRoundTrip(s, quote, rest);
    assert (Quoted(s, quote) + rest)[1..] == Doubled(s, quote) + [quote] + rest;
  }

  lemma WordToken(w: string, rest: string)
    requires Proper(Word(w)) && Ends(Word(w), rest)
    ensures w[0] != ' ' && ReadToken(w + rest) == Got(Word(w), rest)
  {
    WordRoundTrip(w, rest);
    assert (w + rest)[0] == w[0] && IsLetter(w[0]);
  }

  lemma IntRoundTrip(n: int, rest: string)
    requires NoDigitFirst(rest) && (rest != [] ==> rest[0] != '.')
    ensures IntText(n) != [] && IntText(n)[0] != ' '
    ensures ReadToken(IntText(n) + rest) == Got(Int(n), rest)
  {
    hide Digits, ReadDigits, ReadQuoted, ReadWord, ReadSymbol;
    var digits := Digits(if n < 0 then -n else n);
    DigitsRoundTrip(if n < 0 then -n else n, rest);
    assert IsDigit(digits[0]);
    if n < 0 {
      assert (IntText(n) + rest)[1..] == digits + rest;
    }
  }

  lemma DecimalRoundTrip(u: int, scale: nat, rest: string)
    requires scale > 0 && NoDigitFirst(rest)
    ensures DecimalText(u, scale) != [] && DecimalText(u, scale)[0] != ' '
    ensures ReadToken(DecimalText(u, scale) + rest) == Got(Dec(u, scale), rest)
  {
    hide PointText, ReadNumeral, ReadQuoted, ReadWord, ReadSymbol;
    PointRoundTrip(if u < 0 then -u else u, scale, rest);
    if u < 0 {
      assert (DecimalText(u, scale) + rest)[1..] == PointText(-u, scale) + rest;
    }
  }

  lemma SymbolRoundTrip(y: string, rest: string)
    requires y in SYMBOLS && Ends(Sym(y), rest)
    ensures y != [] && y[0] != ' ' && ReadToken(y + rest) == Got(Sym(y), rest)
  {
    var text := y + rest;
    assert |y| == 1 || |y| == 2;
    assert text[..|y|] == y && text[|y|..] == rest;
    if |y| == 1 { assert [text[0]] == y; } else { assert text[..2] == y; }
  }

  // ---- Tokens and the spaces between them ----

  /** Neighbours are set apart by a space, except after an opening parenthesis and before a closing one or a comma. */
  function Gap(t: Token, next: Token): string {
    if t == Sym("(") || next == Sym(")") || next == Sym(",") then "" else " "
  }

  function Written(ts: seq<Token>): string {
    if ts == [] then ""
    else if |ts| == 1 then Text(ts[0])
    else Text(ts[0]) + (Gap(ts[0], ts[1]) + Written(ts[1..]))
  }

  predicate AllProper(ts: seq<Token>) {
    forall i :: 0 <= i < |ts| ==> Proper(ts[i])
  }

  lemma LexSpace(rest: string)
    ensures Lex(" " + rest) == Lex(rest)
  {
    assert (" " + rest)[1..] == rest;
  }

  lemma LexToken(text: string, t: Token, rest: string, more: seq<Token>)
    requires text != [] && text[0] != ' ' && ReadToken(text) == Got(t, rest) && Lex(rest) == Some(more)
    ensures Lex(text) == Some([t] + more)
  {
  }

  lemma GapEnds(t: Token, next: Token, more: string)
    requires Proper(t) && Proper(next)
    ensures Ends(t, Gap(t, next) + (Text(next) + more))
  {
    if Gap(t, next) == "" {
      assert Gap(t, next) + (Text(next) + more) == Text(next) + more;
    }
  }

  lemma WrittenUnfold(ts: seq<Token>)
    requires |ts| > 1
    ensures Written(ts) == Text(ts[0]) + (Gap(ts[0], ts[1]) + Written(ts[1..]))
    ensures exists more :: Written(ts[1..]) == Text(ts[1]) + more
  {
    if |ts| == 2 {
      assert Written(ts[1..]) == Text(ts[1]) + "";
    } else {
      assert ts[1..][0] == ts[1];
      assert Written(ts[1..]) == Text(ts[1]) + (Gap(ts[1], ts[1..][1]) + Written(ts[1..][1..]));
    }
  }

  lemma LexOne(t: Token, after: string, more: seq<Token>)
    requires Proper(t) && Ends(t, after) && Lex(after) == Some(more)
    ensures Lex(Text(t) + after) == Some([t] + more)
  {
    hide ReadToken, Text, Proper, Lex, Ends;
    TokenRoundTrip(t, after);
    LexToken(Text(t) + after, t, after, more);
  }

  /** One token before others: the gap keeps it apart from the next. */
  lemma LexStep(ts: seq<Token>, after: string, more: seq<Token>)
    requires |ts| > 1 && Proper(ts[0]) && Proper(ts[1]) && Lex(Written(ts[1..]) + after) == Some(more)
    ensures Lex(Written(ts) + after) == Some([ts[0]] + more)
  {
    hide ReadToken, Text, Proper, Gap, Lex, Written, Ends;
    var tail := ts[1..];
    WrittenUnfold(ts);
    var x :| Written(tail) == Text(ts[1]) + x;
    Slices.Assoc(Text(ts[1]), x, after);
    GapEnds(ts[0], ts[1], x + after);
    GapSkipped(ts[0], ts[1], Written(tail) + after);
    LexOne(ts[0], Gap(ts[0], ts[1]) + (Written(tail) + after), more);
    Regroup(Text(ts[0]), Gap(ts[0], ts[1]), Written(tail), after);
  }

  /** Tokens written out are read back as they were, and reading goes on with what follows them. */
  lemma {:induction false} LexThen(ts: seq<Token>, after: string, more: seq<Token>)
    requires ts != [] && AllProper(ts) && Ends(ts[|ts| - 1], after) && Lex(after) == Some(more)
    ensures Lex(Written(ts) + after) == Some(ts + more)
  {
    hide ReadToken, Text, Proper, Gap, Lex, Ends, Written;
    if |ts| == 1 {
      assert ts == [ts[0]];
      WrittenOne(ts[0]);
      LexOne(ts[0], after, more);
    } else {
      var tail := ts[1..];
      assert ts[|ts| - 1] == tail[|tail| - 1];
      LexThen(tail, after, more);
      LexStep(ts, after, tail + more);
      assert [ts[0]] + tail == ts;
      Slices.Assoc([ts[0]], tail, more);
    }
  }

  lemma Regroup(a: string, b: string, c: string, d: string)
    ensures a + (b + (c + d)) == a + (b + c) + d
  {
  }

  lemma LexWritten(ts: seq<Token>)
    requires AllProper(ts)
    ensures Lex(Written(ts)) == Some(ts)
  {
    if ts != [] {
      LexThen(ts, "", []);
      assert Written(ts) + "" == Written(ts) && ts + [] == ts;
    }
  }

  lemma GapSkipped(t: Token, next: Token, text: string)
    ensures Lex(Gap(t, next) + text) == Lex(text)
  {
    LexSpace(text);
    assert "" + text == text;
  }

  lemma Regrouped(a: string, b: string, c: string, d: string, e: string)
    ensures a + (b + (c + d + e)) == (a + (b + c)) + d + e
  {
    assert b + (c + d + e) == b + c + d + e;
    assert a + (b + c + d + e) == a + (b + c) + d + e;
  }

  lemma {:induction false} WrittenBoth(a: seq<Token>, b: seq<Token>)
    requires a != [] && b != []
    ensures Written(a + b) == Written(a) + Gap(a[|a| - 1], b[0]) + Written(b)
  {
    hide Text, Gap, Written;
    if |a| == 1 {
      assert a == [a[0]];
      WrittenOne(a[0]);
      WrittenStep(a[0], b);
      Slices.Assoc(Text(a[0]), Gap(a[0], b[0]), Written(b));
    } else {
      var tail := a[1..];
      WrittenBoth(tail, b);
      assert a == [a[0]] + tail && a + b == [a[0]] + (tail + b);
      WrittenStep(a[0], tail);
      WrittenStep(a[0], tail + b);
      Regrouped(Text(a[0]), Gap(a[0], a[1]), Written(tail), Gap(a[|a| - 1], b[0]), Written(b));
    }
  }

  lemma WrittenStep(t: Token, rest: seq<Token>)
    requires rest != []
    ensures Written([t] + rest) == Text(t) + (Gap(t, rest[0]) + Written(rest))
  {
    hide Text, Gap;
    Slices.Uncons(t, rest);
  }

  lemma WrittenTwo(a: Token, b: Token)
    ensures Written([a, b]) == Text(a) + Gap(a, b) + Text(b)
  {
    assert [a, b][1..] == [b];
  }

  lemma WrittenThree(a: Token, b: Token, c: Token)
    ensures Written([a, b, c]) == Text(a) + Gap(a, b) + Text(b) + Gap(b, c) + Text(c)
  {
    hide Text, Gap;
    WrittenTwo(b, c);
    assert [a, b, c][1..] == [b, c];
  }

  lemma WrittenFour(a: Token, b: Token, c: Token, d: Token)
    ensures Written([a, b, c, d]) == Text(a) + Gap(a, b) + Text(b) + Gap(b, c) + Text(c) + Gap(c, d) + Text(d)
  {
    hide Text, Gap;
    WrittenThree(b, c, d);
    assert [a, b, c, d][1..] == [b, c, d];
  }

  lemma SymText(y: string)
    ensures Text(Sym(y)) == y
  {
  }

  lemma WordText(w: string)
    ensures Text(Word(w)) == w
  {
  }

  lemma WrittenOne(t: Token)
    ensures Written([t]) == Text(t)
  {
  }
}
