/** The SQL of a row scan: quoted column names and path, and what reading the text gives back. Names and paths may
    hold any character but NUL, quotes of both kinds included. */
module ScanSql {
  import opened Options
  import opened SqlText
  import Slices

  /** Quoting for SQL: refused when the text has a NUL, else the quote doubled. */
  method SqlQuoted(text: string, quote: char) returns (r: Option<string>)
    ensures r == if '\0' in text then None else Some(Quoted(text, quote))
  {
    if '\0' in text { return None; }
    var doubled := "";
    for i := 0 to |text|
      invariant doubled == Doubled(text[..i], quote)
    {
      DoubledSnoc(text, quote, i);
      doubled := doubled + if text[i] == quote then [quote, quote] else [text[i]];
    }
    assert text[..|text|] == text;
    r := Some([quote] + doubled + [quote]);
  }

  lemma DoubledSnoc(text: string, quote: char, i: nat)
    requires i < |text|
    ensures Doubled(text[..i + 1], quote) == Doubled(text[..i], quote) + if text[i] == quote then [quote, quote] else [text[i]]
  {
    assert text[..i + 1] == text[..i] + [text[i]];
    DoubledOneMore(text[..i], text[i], quote);
  }

  lemma DoubledUnfold(c: char, s: string, quote: char)
    ensures Doubled([c] + s, quote) == (if c == quote then [quote, quote] else [c]) + Doubled(s, quote)
  {
    Slices.Uncons(c, s);
  }

  lemma {:induction false} DoubledOneMore(s: string, c: char, quote: char)
    ensures Doubled(s + [c], quote) == Doubled(s, quote) + if c == quote then [quote, quote] else [c]
  {
    if s == [] {
      assert s + [c] == [c] + [];
      DoubledUnfold(c, [], quote);
    } else {
      hide Doubled;
      var head, tail := s[0], s[1..];
      DoubledOneMore(tail, c, quote);
      DoubledUnfold(head, tail, quote);
      DoubledUnfold(head, tail + [c], quote);
      assert [head] + tail == s;
      Slices.Assoc([head], tail, [c]);
      Slices.Assoc(if head == quote then [quote, quote] else [head], Doubled(tail, quote),
        if c == quote then [quote, quote] else [c]);
    }
  }

  /** Column `i` under its alias. */
  function Column(name: string, i: nat): seq<Token> {
    [Name(name), Word("AS"), Word("_c" + Digits(i))]
  }

  /** The columns of a scan, separated by commas. */
  function Columns(names: seq<string>): seq<Token> {
    if names == [] then []
    else if |names| == 1 then Column(names[0], 0)
    else Columns(names[..|names| - 1]) + ([Sym(",")] + Column(names[|names| - 1], |names| - 1))
  }

  function ScanTokens(names: seq<string>, path: string): seq<Token> {
    [Word("SELECT")] + Columns(names) + [Word("FROM"), Str(path)]
  }

  predicate NoNul(names: seq<string>, path: string) {
    '\0' !in path && forall i :: 0 <= i < |names| ==> '\0' !in names[i]
  }

  lemma ColumnText(name: string, i: nat)
    ensures Written(Column(name, i)) == Quoted(name, '"') + " AS _c" + Digits(i)
  {
    hide Written, Text, Digits, Quoted;
    WrittenThree(Name(name), Word("AS"), Word("_c" + Digits(i)));
    WordText("AS");
    WordText("_c" + Digits(i));
    NameText(name);
    assert Quoted(name, '"') + " " + "AS" + " " + ("_c" + Digits(i)) == Quoted(name, '"') + " AS _c" + Digits(i);
  }

  lemma NameText(s: string)
    ensures Text(Name(s)) == Quoted(s, '"') && Text(Str(s)) == Quoted(s, '\'')
  {
  }

  lemma {:induction false} ColumnsEnd(names: seq<string>)
    requires names != []
    ensures Columns(names) != [] && Columns(names)[0].Name? && Columns(names)[|Columns(names)| - 1].Word?
  {
    if |names| > 1 { ColumnsEnd(names[..|names| - 1]); }
  }

  lemma FirstColumn(name: string)
    ensures "SELECT " + Quoted(name, '"') + " AS _c" + Digits(0) == Written([Word("SELECT")] + Column(name, 0))
  {
    hide Written, Text, Digits, Quoted;
    ColumnText(name, 0);
    WrittenBoth([Word("SELECT")], Column(name, 0));
    WrittenOne(Word("SELECT"));
    WordText("SELECT");
    assert "SELECT" + " " == "SELECT ";
    assert "SELECT " + (Quoted(name, '"') + " AS _c" + Digits(0)) == "SELECT " + Quoted(name, '"') + " AS _c" + Digits(0);
  }

  lemma NextColumn(before: seq<Token>, name: string, i: nat)
    requires before != [] && before[|before| - 1].Word?
    ensures Written(before) + ", " + Quoted(name, '"') + " AS _c" + Digits(i)
         == Written(before + ([Sym(",")] + Column(name, i)))
  {
    hide Written, Text, Digits, Quoted;
    ColumnText(name, i);
    WrittenBoth(before, [Sym(",")] + Column(name, i));
    WrittenBoth([Sym(",")], Column(name, i));
    WrittenOne(Sym(","));
    SymText(",");
    AfterComma(Written(before), Quoted(name, '"'), " AS _c", Digits(i));
  }

  lemma AfterComma(a: string, b: string, c: string, d: string)
    ensures a + "" + ("," + " " + (b + c + d)) == a + ", " + b + c + d
  {
    assert "," + " " == ", " && a + "" == a;
    assert ", " + (b + c + d) == ", " + b + c + d;
    assert a + (", " + b + c + d) == a + ", " + b + c + d;
  }

  /** The column just written: the first after SELECT, any other after a comma. */
  lemma ColumnAdded(names: seq<string>, i: nat, sql: string)
    requires i < |names|
    requires sql == if i == 0 then "SELECT " else Written([Word("SELECT")] + Columns(names[..i]))
    ensures (if i > 0 then sql + ", " else sql) + Quoted(names[i], '"') + " AS _c" + Digits(i)
         == Written([Word("SELECT")] + Columns(names[..i + 1]))
  {
    hide Written, Text, Digits, Quoted, Column;
    if i == 0 {
      FirstColumn(names[0]);
      assert names[..1] == [names[0]];
    } else {
      ColumnsEnd(names[..i]);
      NextColumn([Word("SELECT")] + Columns(names[..i]), names[i], i);
      assert names[..i + 1][..i] == names[..i];
      Slices.Assoc([Word("SELECT")], Columns(names[..i]), [Sym(",")] + Column(names[i], i));
    }
  }

  lemma FromAdded(names: seq<string>, path: string, sql: string)
    requires names != [] && sql == Written([Word("SELECT")] + Columns(names))
    ensures sql + " FROM " + Quoted(path, '\'') == Written(ScanTokens(names, path))
  {
    hide Written, Text, Quoted, Columns;
    ColumnsEnd(names);
    WrittenBoth([Word("SELECT")] + Columns(names), [Word("FROM"), Str(path)]);
    WrittenTwo(Word("FROM"), Str(path));
    WordText("FROM");
    NameText(path);
    assert " " + ("FROM" + " " + Quoted(path, '\'')) == " FROM " + Quoted(path, '\'');
    assert sql + " " + ("FROM" + " " + Quoted(path, '\'')) == sql + (" " + ("FROM" + " " + Quoted(path, '\'')));
    assert sql + " FROM " + Quoted(path, '\'') == sql + (" FROM " + Quoted(path, '\''));
  }

  function ScanText(names: seq<string>, path: string, filter: string): string {
    Written(ScanTokens(names, path)) + if filter == "" then "" else " WHERE " + filter
  }

  method RowScanSql(names: seq<string>, path: string, filter: string) returns (r: Option<string>)
    requires names != []
    ensures r.Some? <==> NoNul(names, path)
    ensures r.Some? ==> r.value == ScanText(names, path, filter)
  {
    hide Written, Quoted, Text, Columns, Gap;
    var sql := "SELECT ";
    for i := 0 to |names|
      invariant i == 0 ==> sql == "SELECT "
      invariant i > 0 ==> sql == Written([Word("SELECT")] + Columns(names[..i]))
      invariant forall j :: 0 <= j < i ==> '\0' !in names[j]
    {
      var name := SqlQuoted(names[i], '"');
      if name.None? { return None; }
      ColumnAdded(names, i, sql);
      if i > 0 { sql := sql + ", "; }
      sql := sql + name.value + " AS _c" + Digits(i);
    }
    assert names[..|names|] == names;
    var from := SqlQuoted(path, '\'');
    if from.None? { return None; }
    FromAdded(names, path, sql);
    sql := sql + " FROM " + from.value;
    if filter != "" { sql := sql + " WHERE " + filter; }
    else { assert sql + "" == sql; }
    r := Some(sql);
  }

  // ---- Reading it back ----

  lemma ColumnWords(i: nat)
    ensures Proper(Word("_c" + Digits(i)))
  {
  }

  lemma {:induction false} ColumnsProper(names: seq<string>)
    ensures AllProper(Columns(names))
  {
    if names != [] {
      ColumnWords(|names| - 1);
      ColumnsProper(names[..|names| - 1]);
    }
  }

  lemma ScanProper(names: seq<string>, path: string)
    ensures AllProper(ScanTokens(names, path))
  {
    hide Columns, Digits;
    ColumnsProper(names);
  }

  /** The scan's text is read as the original names and path, then the filter's own tokens. */
  lemma ScanRoundTrip(names: seq<string>, path: string, filter: string, more: seq<Token>)
    requires names != [] && (filter != "" ==> Lex(filter) == Some(more))
    ensures Lex(ScanText(names, path, filter))
         == Some(ScanTokens(names, path) + if filter == "" then [] else [Word("WHERE")] + more)
  {
    hide Lex, Written, ScanTokens, AllProper;
    var ts := ScanTokens(names, path);
    ScanProper(names, path);
    if filter == "" {
      LexWritten(ts);
      assert Written(ts) + "" == Written(ts) && ts + [] == ts;
    } else {
      WhereProper();
      ScanEnds(names, path);
      assert " WHERE" + (" " + filter) == " WHERE " + filter;
      LexSpace(filter);
      LexThen([Word("WHERE")], " " + filter, more);
      WrittenOne(Word("WHERE"));
      WordText("WHERE");
      LexSpace("WHERE" + (" " + filter));
      assert " " + ("WHERE" + (" " + filter)) == " WHERE " + filter;
      LexThen(ts, " WHERE " + filter, [Word("WHERE")] + more);
    }
  }

  lemma WhereProper()
    ensures AllProper([Word("WHERE")])
  {
  }

  lemma ScanEnds(names: seq<string>, path: string)
    ensures var ts := ScanTokens(names, path); ts != [] && ts[|ts| - 1] == Str(path)
  {
  }
}
