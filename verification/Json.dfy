/** The connector's JSON: quoting, and the parser with its fast path for texts without escapes. The parser is
    lenient about unfinished objects and lists; the functions here are as lenient, and the parser object follows them. */
module Json {
  import opened SqlText
  import Slices

  /** A parsed value; numbers keep their text, and an object that is only a base64 text is bytes. */
  datatype Value =
    | Null
    | Bool(b: bool)
    | Number(text: string)
    | Text(s: string)
    | List(items: seq<Value>)
    | Object(fields: seq<Field>)
    | Bytes(base64: string)

  datatype Field = Field(key: string, value: Value)

  // ---- Quoting ----

  const HEX := "0123456789abcdef"

  /** How one character is written between quotes. */
  function Escape(c: char): (e: string)
    ensures e != []
  {
    if c == '"' then ['\\', '"']
    else if c == '\\' then ['\\', '\\']
    else if c == '\U{0008}' then ['\\', 'b']
    else if c == '\U{000C}' then ['\\', 'f']
    else if c == '\n' then ['\\', 'n']
    else if c == '\r' then ['\\', 'r']
    else if c == '\t' then ['\\', 't']
    else if c < ' ' then ['\\', 'u', '0', '0', HEX[c as int / 16], HEX[c as int % 16]]
    else [c]
  }

  function Escaped(s: string): string {
    if s == [] then [] else Escape(s[0]) + Escaped(s[1..])
  }

  function Quote(s: string): string {
    ['"'] + Escaped(s) + ['"']
  }

  lemma EscapedSnoc(s: string, i: nat)
    requires i < |s|
    ensures Escaped(s[..i + 1]) == Escaped(s[..i]) + Escape(s[i])
  {
    hide Escape;
    assert s[..i + 1] == s[..i] + [s[i]];
    EscapedOneMore(s[..i], s[i]);
  }

  lemma EscapedUnfold(c: char, s: string)
    ensures Escaped([c] + s) == Escape(c) + Escaped(s)
  {
    hide Escape;
    Slices.Uncons(c, s);
  }

  lemma {:induction false} EscapedOneMore(s: string, c: char)
    ensures Escaped(s + [c]) == Escaped(s) + Escape(c)
  {
    hide Escape;
    if s == [] {
      assert s + [c] == [c] + [];
      EscapedUnfold(c, []);
    } else {
      hide Escaped;
      EscapedOneMore(s[1..], c);
      EscapedUnfold(s[0], s[1..]);
      EscapedUnfold(s[0], s[1..] + [c]);
      assert [s[0]] + s[1..] == s;
      Slices.Assoc([s[0]], s[1..], [c]);
      Slices.Assoc(Escape(s[0]), Escaped(s[1..]), Escape(c));
    }
  }

  /** Appends the quoted text to what is built so far. */
  method AppendQuoted(s: string, sb: string) returns (r: string)
    ensures r == sb + Quote(s)
  {
    hide Escape;
    r := sb + ['"'];
    for i := 0 to |s|
      invariant r == sb + ['"'] + Escaped(s[..i])
    {
      EscapedSnoc(s, i);
      Slices.Assoc(sb + ['"'], Escaped(s[..i]), Escape(s[i]));
      r := r + Escape(s[i]);
    }
    assert s[..|s|] == s;
    r := r + ['"'];
    assert r == sb + Quote(s);
  }

  // ---- Reading a text ----

  function HexDigit(c: char): int {
    if '0' <= c <= '9' then c as int - '0' as int
    else if 'a' <= c <= 'f' then c as int - 'a' as int + 10
    else if 'A' <= c <= 'F' then c as int - 'A' as int + 10
    else -1
  }

  /** The character that four hexadecimal digits name. */
  function ReadHex(t: string): Read<char> {
    if |t| < 4 || HexDigit(t[0]) < 0 || HexDigit(t[1]) < 0 || HexDigit(t[2]) < 0 || HexDigit(t[3]) < 0 then Bad
    else
      var code := 4096 * HexDigit(t[0]) + 256 * HexDigit(t[1]) + 16 * HexDigit(t[2]) + HexDigit(t[3]);
      if 0xD800 <= code < 0xE000 then Bad else Got(code as char, t[4..])
  }

  /** The character after a backslash, and what follows the escape. */
  function ReadEscape(t: string): (r: Read<char>)
    ensures r.Got? ==> |r.rest| < |t|
  {
    if t == [] then Bad
    else
      match t[0]
      case 'b' => Got('\U{0008}', t[1..])
      case 'f' => Got('\U{000C}', t[1..])
      case 'n' => Got('\n', t[1..])
      case 'r' => Got('\r', t[1..])
      case 't' => Got('\t', t[1..])
      case 'u' => ReadHex(t[1..])
      case c => Got(c, t[1..])
  }

  /** The digits in order, in either case, and nothing else. */
  lemma HexDigits(c: char)
    ensures forall i :: 0 <= i < 16 ==> HexDigit("0123456789abcdef"[i]) == i && HexDigit("0123456789ABCDEF"[i]) == i
    ensures c !in "0123456789abcdefABCDEF" ==> HexDigit(c) == -1
  {
  }

  /** After the backslash five letters stand for control characters, and any other but `u` for itself. */
  lemma EscapesMean(t: string)
    requires t != []
    ensures t[0] == 'b' ==> ReadEscape(t) == Got(8 as char, t[1..])
    ensures t[0] == 't' ==> ReadEscape(t) == Got(9 as char, t[1..])
    ensures t[0] == 'n' ==> ReadEscape(t) == Got(10 as char, t[1..])
    ensures t[0] == 'f' ==> ReadEscape(t) == Got(12 as char, t[1..])
    ensures t[0] == 'r' ==> ReadEscape(t) == Got(13 as char, t[1..])
    ensures t[0] !in "btnfru" ==> ReadEscape(t) == Got(t[0], t[1..])
  {
  }

  /** After `u` four digits give the character of their number, the highest first; surrogate halves have no place in this model. */
  lemma HexEscape(t: string)
    requires t != [] && t[0] == 'u'
    ensures ReadEscape(t).Got? <==> |t| >= 5 && (forall i :: 1 <= i <= 4 ==> HexDigit(t[i]) != -1) && !(HexDigit(t[1]) == 13 && HexDigit(t[2]) >= 8)
    ensures ReadEscape(t).Got? ==>
      && ReadEscape(t).rest == t[5..]
      && ReadEscape(t).v as int == ((HexDigit(t[1]) * 16 + HexDigit(t[2])) * 16 + HexDigit(t[3])) * 16 + HexDigit(t[4])
  {
    if |t| >= 5 {
      HexRange(t[1]);
      HexRange(t[2]);
      HexRange(t[3]);
      HexRange(t[4]);
      Surrogates(HexDigit(t[1]), HexDigit(t[2]), HexDigit(t[3]), HexDigit(t[4]));
    }
    hide HexDigit;
  }

  lemma HexRange(c: char)
    ensures -1 <= HexDigit(c) < 16
  {
  }

  lemma Surrogates(a: int, b: int, c: int, d: int)
    ensures 0 <= b < 16 && 0 <= c < 16 && 0 <= d < 16 ==>
            (0xD800 <= 4096 * a + 256 * b + 16 * c + d < 0xE000 <==> a == 13 && b >= 8)
  {
  }

  /** The text up to the closing quote. */
  function ReadText(t: string): (r: Read<string>)
    ensures r.Got? ==> |r.rest| < |t|
    decreases |t|
  {
    if t == [] then Bad
    else if t[0] == '"' then Got([], t[1..])
    else if t[0] == '\\' then
      match ReadEscape(t[1..])
      case Bad => Bad
      case Got(c, rest) =>
        match ReadText(rest)
        case Bad => Bad
        case Got(more, after) => Got([c] + more, after)
    else
      match ReadText(t[1..])
      case Bad => Bad
      case Got(more, after) => Got([t[0]] + more, after)
  }

  /** An escape is read as the character it was written for. */
  lemma EscapeRoundTrip(c: char, rest: string)
    ensures Escape(c)[0] == '\\' ==> ReadEscape(Escape(c)[1..] + rest) == Got(c, rest)
    ensures Escape(c)[0] != '\\' ==> Escape(c) == [c] && c != '"' && c != '\\'
  {
    if Escape(c)[0] == '\\' {
      if |Escape(c)| == 2 {
        assert (Escape(c)[1..] + rest)[1..] == rest;
      } else {
        HexRoundTrip(c, rest);
      }
    }
  }

  lemma HexRoundTrip(c: char, rest: string)
    requires c < ' '
    ensures ReadEscape(['u', '0', '0', HEX[c as int / 16], HEX[c as int % 16]] + rest) == Got(c, rest)
  {
    var d, e := c as int / 16, c as int % 16;
    HexOf(d);
    HexOf(e);
    var t := ['u', '0', '0', HEX[d], HEX[e]] + rest;
    assert t[1..][4..] == rest;
  }

  lemma HexOf(d: nat)
    requires d < 16
    ensures HexDigit(HEX[d]) == d
  {
  }

  lemma ReadTextEscape(t: string, c: char, rest: string, more: string, after: string)
    requires t != [] && t[0] == '\\' && ReadEscape(t[1..]) == Got(c, rest) && ReadText(rest) == Got(more, after)
    ensures ReadText(t) == Got([c] + more, after)
  {
  }

  lemma ReadTextPlain(c: char, rest: string, more: string, after: string)
    requires c != '"' && c != '\\' && ReadText(rest) == Got(more, after)
    ensures ReadText([c] + rest) == Got([c] + more, after)
  {
    Slices.Uncons(c, rest);
  }

  lemma QuoteStep(c: char, tail: string, more: string, after: string)
    requires ReadText(tail) == Got(more, after)
    ensures ReadText(Escape(c) + tail) == Got([c] + more, after)
  {
    hide ReadText, Escape, ReadEscape;
    EscapeRoundTrip(c, tail);
    if Escape(c)[0] == '\\' {
      assert (Escape(c) + tail)[1..] == Escape(c)[1..] + tail;
      ReadTextEscape(Escape(c) + tail, c, tail, more, after);
    } else {
      ReadTextPlain(c, tail, more, after);
    }
  }

  /** Every text, quoted and read back, is itself, whatever follows the closing quote. */
  lemma {:induction false} QuoteRoundTrip(s: string, rest: string)
    ensures ReadText(Escaped(s) + (['"'] + rest)) == Got(s, rest)
  {
    if s == [] {
      assert Escaped(s) + (['"'] + rest) == ['"'] + rest;
      Slices.Uncons('"', rest);
    } else {
      hide ReadText, Escape;
      QuoteRoundTrip(s[1..], rest);
      QuoteStep(s[0], Escaped(s[1..]) + (['"'] + rest), s[1..], rest);
      Slices.Assoc(Escape(s[0]), Escaped(s[1..]), ['"'] + rest);
      assert [s[0]] + s[1..] == s;
    }
  }

  // ---- Reading a value ----

  predicate IsSpace(c: char) { c == ' ' || c == '\t' || c == '\r' || c == '\n' }

  function Skip(t: string): (u: string)
    ensures |u| <= |t|
  {
    if t != [] && IsSpace(t[0]) then Skip(t[1..]) else t
  }

  predicate IsNumeric(c: char) { '0' <= c <= '9' || c == '-' || c == '+' || c == '.' || c == 'e' || c == 'E' }

  function NumericRun(t: string): (n: nat)
    ensures n <= |t|
  {
    if t != [] && IsNumeric(t[0]) then 1 + NumericRun(t[1..]) else 0
  }

  /** A dictionary entry: a key seen before keeps its place and takes the new value. */
  function Put(fields: seq<Field>, key: string, value: Value): seq<Field> {
    if fields == [] then [Field(key, value)]
    else if fields[0].key == key then [Field(key, value)] + fields[1..]
    else [fields[0]] + Put(fields[1..], key, value)
  }

  function Closed(fields: seq<Field>): Value {
    if |fields| == 1 && fields[0].key == "base64" && fields[0].value.Text? then Bytes(fields[0].value.s)
    else Object(fields)
  }

  function ReadKey(t: string): (r: Read<string>)
    ensures r.Got? ==> |r.rest| < |t|
  {
    if t != [] && t[0] == '"' then ReadText(t[1..]) else Bad
  }

  function ReadBoolean(t: string): (r: Read<Value>)
    ensures r.Got? ==> |r.rest| < |t|
  {
    if "true" <= t then Got(Bool(true), t[4..]) else if "false" <= t then Got(Bool(false), t[5..]) else Bad
  }

  function ReadNull(t: string): (r: Read<Value>)
    ensures r.Got? ==> |r.rest| < |t|
  {
    if "null" <= t then Got(Null, t[4..]) else Bad
  }

  function ReadNumber(t: string): (r: Read<Value>)
    ensures r.Got? ==> |r.rest| < |t|
  {
    var n := NumericRun(t);
    if n == 0 then Bad else Got(Number(t[..n]), t[n..])
  }

  function ReadValue(t: string): (r: Read<Value>)
    ensures r.Got? ==> |r.rest| < |t|
    decreases |t|, 0
  {
    var u := Skip(t);
    if u == [] then Bad
    else if u[0] == '{' then ReadObject(u[1..])
    else if u[0] == '[' then ReadList(u[1..])
    else if u[0] == '"' then
      match ReadText(u[1..])
      case Bad => Bad
      case Got(s, rest) => Got(Text(s), rest)
    else if u[0] == 't' || u[0] == 'f' then ReadBoolean(u)
    else if u[0] == 'n' then ReadNull(u)
    else ReadNumber(u)
  }

  /** An object after its opening brace. */
  function ReadObject(t: string): (r: Read<Value>)
    ensures r.Got? ==> |r.rest| <= |t|
    decreases |t|, 2
  {
    var v := Skip(t);
    if v != [] && v[0] == '}' then Got(Object([]), v[1..]) else ReadFields(v, [])
  }

  /** A list after its opening bracket. */
  function ReadList(t: string): (r: Read<Value>)
    ensures r.Got? ==> |r.rest| <= |t|
    decreases |t|, 2
  {
    var v := Skip(t);
    if v != [] && v[0] == ']' then Got(List([]), v[1..]) else ReadItems(v, [])
  }

  /** One entry of an object: a key, a colon and a value. */
  function ReadEntry(t: string): (r: Read<Field>)
    ensures r.Got? ==> |r.rest| < |t|
    decreases |t|, 0
  {
    match ReadKey(Skip(t))
    case Bad => Bad
    case Got(key, rest) =>
      var u := Skip(rest);
      if u == [] || u[0] != ':' then Bad
      else
        match ReadValue(u[1..])
        case Bad => Bad
        case Got(value, after) => Got(Field(key, value), after)
  }

  /** The entries of an object, up to its closing brace or the end of the text. */
  function ReadFields(t: string, fields: seq<Field>): (r: Read<Value>)
    ensures r.Got? ==> |r.rest| <= |t|
    decreases |t|, 1
  {
    if t == [] then Got(Closed(fields), t)
    else
      match ReadEntry(t)
      case Bad => Bad
      case Got(f, after) =>
        var v := Skip(after);
        if v == [] then Bad
        else if v[0] == ',' then ReadFields(v[1..], Put(fields, f.key, f.value))
        else if v[0] == '}' then Got(Closed(Put(fields, f.key, f.value)), v[1..])
        else Bad
  }

  /** The items of a list, up to its closing bracket or the end of the text. */
  function ReadItems(t: string, items: seq<Value>): (r: Read<Value>)
    ensures r.Got? ==> |r.rest| <= |t|
    decreases |t|, 1
  {
    if t == [] then Got(List(items), t)
    else
      match ReadValue(t)
      case Bad => Bad
      case Got(value, after) =>
        var v := Skip(after);
        if v == [] then Bad
        else if v[0] == ',' then ReadItems(v[1..], items + [value])
        else if v[0] == ']' then Got(List(items + [value]), v[1..])
        else Bad
  }

  // ---- The parser object ----

  datatype Parsed<T> = Value(v: T) | Error

  /** A position moving over a text. */
  class Parser {
    const s: string
    var pos: nat

    ghost predicate Valid()
      reads this
    {
      pos <= |s|
    }

    ghost function Rest(): string
      reads this
      requires Valid()
    {
      s[pos..]
    }

    constructor (s: string)
      ensures Valid() && this.s == s && Rest() == s
    {
      this.s, pos := s, 0;
    }

    lemma AtPos()
      requires Valid() && pos < |s|
      ensures Rest() != [] && Rest()[0] == s[pos] && Rest()[1..] == s[pos + 1..]
    {
    }

    method SkipWhitespace()
      requires Valid()
      modifies this
      ensures Valid() && old(pos) <= pos && Rest() == Skip(old(Rest()))
    {
      while pos < |s| && IsSpace(s[pos])
        invariant Valid() && old(pos) <= pos && Skip(Rest()) == Skip(old(Rest()))
      {
        AtPos();
        pos := pos + 1;
      }
      if pos < |s| { AtPos(); }
    }

    /** Fast path: up to the first quote or backslash nothing is copied. Slow path: from there, character by character. */
    method ParseString() returns (r: Parsed<string>)
      requires Valid() && pos < |s| && s[pos] == '"'
      modifies this
      ensures Valid() && old(pos) < pos
      ensures ReadText(old(Rest())[1..]) == if r.Value? then Got(r.v, Rest()) else Bad
    {
      hide ReadText, Extends;
      AtPos();
      pos := pos + 1;
      var start := pos;
      ghost var text := s[start..];
      FastStart(text);
      ScanPlain(text);
      if pos < |s| && s[pos] == '"' {
        AtPos();
        ExtendsEnd(text, s[start..pos], Rest());
        r := Value(s[start..pos]);
        pos := pos + 1;
      } else {
        r := ParseEscaped(text, s[start..pos]);
      }
    }

    method ScanPlain(ghost text: string)
      requires Valid() && Extends(text, [], Rest())
      modifies this
      ensures old(pos) <= pos <= |s| && Extends(text, s[old(pos)..pos], Rest())
      ensures pos == |s| || s[pos] == '"' || s[pos] == '\\'
    {
      hide ReadText, Extends;
      ghost var start := pos;
      assert s[start..start] == [];
      while pos < |s| && s[pos] != '"' && s[pos] != '\\'
        invariant start <= pos <= |s| && Extends(text, s[start..pos], Rest())
      {
        AtPos();
        ExtendsPlain(text, s[start..pos], Rest());
        assert s[start..pos] + [s[pos]] == s[start..pos + 1];
        pos := pos + 1;
      }
    }

    method ParseEscaped(ghost text: string, done: string) returns (r: Parsed<string>)
      requires Valid() && Extends(text, done, Rest())
      modifies this
      ensures Valid() && old(pos) <= pos
      ensures ReadText(text) == if r.Value? then Got(r.v, Rest()) else Bad
    {
      hide ReadText, ReadEscape, Extends;
      var sb := done;
      while pos < |s|
        invariant Valid() && old(pos) <= pos && Extends(text, sb, Rest())
      {
        var c := s[pos];
        AtPos();
        if c == '"' {
          ExtendsEnd(text, sb, Rest());
          pos := pos + 1;
          return Value(sb);
        }
        if c == '\\' {
          ExtendsEscape(text, sb, Rest());
          pos := pos + 1;
          var e := ParseEscape();
          if e.Error? { return Error; }
          sb := sb + [e.v];
        } else {
          ExtendsPlain(text, sb, Rest());
          sb := sb + [c];
          pos := pos + 1;
        }
      }
      assert Rest() == [];
      ExtendsNothing(text, sb);
      r := Error;
    }

    method ParseEscape() returns (r: Parsed<char>)
      requires Valid()
      modifies this
      ensures Valid() && old(pos) <= pos
      ensures ReadEscape(old(Rest())) == if r.Value? then Got(r.v, Rest()) else Bad
      ensures r.Value? ==> old(pos) < pos
    {
      if pos >= |s| { return Error; }
      var esc := s[pos];
      AtPos();
      ghost var t := s[pos..];
      pos := pos + 1;
      match esc
      case 'b' => r := Value('\U{0008}');
      case 'f' => r := Value('\U{000C}');
      case 'n' => r := Value('\n');
      case 'r' => r := Value('\r');
      case 't' => r := Value('\t');
      case 'u' =>
        match ReadHex(s[pos..]) {
          case Bad => r := Error;
          case Got(c, rest) =>
            r := Value(c);
            Slices.DropDrop(s, pos, 4);
            pos := pos + 4;
        }
      case c => r := Value(c);
    }

    method ParseNumber() returns (r: Parsed<Value>)
      requires Valid() && pos < |s|
      modifies this
      ensures Valid() && old(pos) <= pos
      ensures ReadNumber(old(Rest())) == if r.Value? then Got(r.v, Rest()) else Bad
    {
      var start := pos;
      ghost var t := Rest();
      while pos < |s| && IsNumeric(s[pos])
        invariant start <= pos <= |s| && NumericRun(t) == pos - start + NumericRun(s[pos..])
      {
        AtPos();
        pos := pos + 1;
      }
      if pos < |s| { AtPos(); }
      assert t[..pos - start] == s[start..pos] && t[pos - start..] == s[pos..];
      r := if pos == start then Error else Value(Number(s[start..pos]));
    }

    predicate StartsWith(word: string)
      requires Valid()
      reads this
      ensures StartsWith(word) <==> word <= Rest()
      ensures StartsWith(word) ==> pos + |word| <= |s| && Rest()[|word|..] == s[pos + |word|..]
    {
      assert pos + |word| <= |s| ==> Rest()[..|word|] == s[pos..pos + |word|];
      pos + |word| <= |s| && s[pos..pos + |word|] == word
    }

    method ParseBoolean() returns (r: Parsed<Value>)
      requires Valid()
      modifies this
      ensures Valid() && old(pos) <= pos
      ensures ReadBoolean(old(Rest())) == if r.Value? then Got(r.v, Rest()) else Bad
    {
      if StartsWith("true") {
        r, pos := Value(Bool(true)), pos + 4;
      } else if StartsWith("false") {
        r, pos := Value(Bool(false)), pos + 5;
      } else {
        r := Error;
      }
    }

    method ParseNull() returns (r: Parsed<Value>)
      requires Valid()
      modifies this
      ensures Valid() && old(pos) <= pos
      ensures ReadNull(old(Rest())) == if r.Value? then Got(r.v, Rest()) else Bad
    {
      if StartsWith("null") { r, pos := Value(Null), pos + 4; } else { r := Error; }
    }

    method ParseValue() returns (r: Parsed<Value>)
      requires Valid()
      modifies this
      ensures Valid() && old(pos) <= pos
      ensures ReadValue(old(Rest())) == if r.Value? then Got(r.v, Rest()) else Bad
      ensures r.Value? ==> old(pos) < pos
      decreases |s| - pos, 1
    {
      hide ReadText, ReadNumber, ReadBoolean, ReadNull, ReadObject, ReadList, Skip;
      SkipWhitespace();
      if pos >= |s| { return Error; }
      var c := s[pos];
      AtPos();
      match c
      case '{' => r := ParseObject();
      case '[' => r := ParseArray();
      case '"' =>
        var t := ParseString();
        r := if t.Value? then Value(Text(t.v)) else Error;
      case 't' => r := ParseBoolean();
      case 'f' => r := ParseBoolean();
      case 'n' => r := ParseNull();
      case _ => r := ParseNumber();
    }

    method ParseKey() returns (r: Parsed<string>)
      requires Valid()
      modifies this
      ensures Valid() && old(pos) <= pos
      ensures ReadKey(old(Rest())) == if r.Value? then Got(r.v, Rest()) else Bad
    {
      hide ReadText;
      if pos >= |s| { return Error; }
      AtPos();
      if s[pos] != '"' { return Error; }
      r := ParseString();
    }

    method ParseEntry() returns (r: Parsed<Field>)
      requires Valid()
      modifies this
      ensures Valid() && old(pos) <= pos && (r.Value? ==> old(pos) < pos)
      ensures ReadEntry(old(Rest())) == if r.Value? then Got(r.v, Rest()) else Bad
      decreases |s| - pos, 0
    {
      hide ReadKey, ReadValue, Skip;
      SkipWhitespace();
      var key := ParseKey();
      if key.Error? { return Error; }
      SkipWhitespace();
      if pos >= |s| { return Error; }
      AtPos();
      if s[pos] != ':' { return Error; }
      pos := pos + 1;
      var value := ParseValue();
      r := if value.Value? then Value(Field(key.v, value.v)) else Error;
    }

    method ParseObject() returns (r: Parsed<Value>)
      requires Valid() && pos < |s|
      modifies this
      ensures Valid() && old(pos) <= pos
      ensures ReadObject(old(Rest())[1..]) == if r.Value? then Got(r.v, Rest()) else Bad
      decreases |s| - pos, 0
    {
      hide ReadFields, Skip;
      AtPos();
      pos := pos + 1;
      SkipWhitespace();
      if pos < |s| { AtPos(); }
      if pos < |s| && s[pos] == '}' {
        pos := pos + 1;
        return Value(Object([]));
      }
      r := ParseFields();
    }

    method ParseFields() returns (r: Parsed<Value>)
      requires Valid()
      modifies this
      ensures Valid() && old(pos) <= pos
      ensures ReadFields(old(Rest()), []) == if r.Value? then Got(r.v, Rest()) else Bad
      decreases |s| - pos, 1
    {
      hide ReadEntry, Skip, Put;
      ghost var whole := ReadFields(Rest(), []);
      var fields := [];
      while pos < |s|
        invariant Valid() && old(pos) <= pos && ReadFields(Rest(), fields) == whole
        decreases |s| - pos
      {
        var f := ParseEntry();
        if f.Error? { return Error; }
        SkipWhitespace();
        if pos >= |s| { return Error; }
        AtPos();
        var mark := s[pos];
        pos := pos + 1;
        fields := Put(fields, f.v.key, f.v.value);
        if mark == '}' { return Value(Closed(fields)); }
        if mark != ',' { return Error; }
      }
      r := Value(Closed(fields));
    }

    method ParseArray() returns (r: Parsed<Value>)
      requires Valid() && pos < |s|
      modifies this
      ensures Valid() && old(pos) <= pos
      ensures ReadList(old(Rest())[1..]) == if r.Value? then Got(r.v, Rest()) else Bad
      decreases |s| - pos, 0
    {
      hide ReadItems, Skip;
      AtPos();
      pos := pos + 1;
      SkipWhitespace();
      if pos < |s| { AtPos(); }
      if pos < |s| && s[pos] == ']' {
        pos := pos + 1;
        return Value(List([]));
      }
      r := ParseItems();
    }

    method ParseItems() returns (r: Parsed<Value>)
      requires Valid()
      modifies this
      ensures Valid() && old(pos) <= pos
      ensures ReadItems(old(Rest()), []) == if r.Value? then Got(r.v, Rest()) else Bad
      decreases |s| - pos, 2
    {
      hide ReadValue, Skip;
      ghost var whole := ReadItems(Rest(), []);
      var items := [];
      while pos < |s|
        invariant Valid() && old(pos) <= pos && ReadItems(Rest(), items) == whole
        decreases |s| - pos
      {
        var item := ParseValue();
        if item.Error? { return Error; }
        SkipWhitespace();
        if pos >= |s| { return Error; }
        AtPos();
        var mark := s[pos];
        pos := pos + 1;
        items := items + [item.v];
        if mark == ']' { return Value(List(items)); }
        if mark != ',' { return Error; }
      }
      r := Value(List(items));
    }
  }

  /** Reading `text` is reading `rest` with `done` before it. */
  ghost predicate Extends(text: string, done: string, rest: string) {
    ReadText(text) == Prefixed(done, ReadText(rest))
  }

  function Prefixed(done: string, r: Read<string>): Read<string> {
    match r
    case Got(v, rest) => Got(done + v, rest)
    case Bad => Bad
  }

  lemma FastStart(text: string)
    ensures Extends(text, [], text)
  {
    hide ReadText;
    if ReadText(text).Got? { assert [] + ReadText(text).v == ReadText(text).v; }
  }

  lemma ExtendsPlain(text: string, done: string, rest: string)
    requires Extends(text, done, rest) && rest != [] && rest[0] != '"' && rest[0] != '\\'
    ensures Extends(text, done + [rest[0]], rest[1..])
  {
    var r := ReadText(rest[1..]);
    if r.Got? { Slices.Assoc(done, [rest[0]], r.v); }
  }

  lemma ExtendsEscape(text: string, done: string, rest: string)
    requires Extends(text, done, rest) && rest != [] && rest[0] == '\\'
    ensures ReadEscape(rest[1..]).Bad? ==> ReadText(text).Bad?
    ensures ReadEscape(rest[1..]).Got? ==> Extends(text, done + [ReadEscape(rest[1..]).v], ReadEscape(rest[1..]).rest)
  {
    hide ReadEscape;
    var e := ReadEscape(rest[1..]);
    if e.Got? {
      var r := ReadText(e.rest);
      if r.Got? { Slices.Assoc(done, [e.v], r.v); }
    }
  }

  lemma ExtendsEnd(text: string, done: string, rest: string)
    requires Extends(text, done, rest) && rest != [] && rest[0] == '"'
    ensures ReadText(text) == Got(done, rest[1..])
  {
    assert done + [] == done;
  }

  lemma ExtendsNothing(text: string, done: string)
    requires Extends(text, done, [])
    ensures ReadText(text).Bad?
  {
  }

  /** A whole document: anything but an object is refused, and what follows the object is ignored. */
  method ParseDocument(json: string) returns (r: Parsed<seq<Field>>)
    ensures r.Value? <==> ReadValue(json).Got? && ReadValue(json).v.Object?
    ensures r.Value? ==> r.v == ReadValue(json).v.fields
  {
    hide ReadValue;
    var p := new Parser(json);
    var v := p.ParseValue();
    r := if v.Value? && v.v.Object? then Value(v.v.fields) else Error;
  }
}
