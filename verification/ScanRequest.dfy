/** The JSON requests of a Spark partition reader, and what a reader of the request gets back: the settings, the
    texts, and through the SQL inside the JSON the original names and path. */
module ScanRequest {
  import opened Options
  import opened Json
  import opened JsonPrint
  import opened ScanSql
  import SqlText
  import Slices

  /** One slice of a file; a negative bound stands for the whole file. Absent texts are empty. */
  datatype Part = Part(filePath: string, startRg: int, endRg: int, parallelism: int)

  datatype Settings = Settings(maxMemory: string, cache: bool)

  function IntValue(n: int): Value {
    Number(SqlText.IntText(n))
  }

  function AtLeastOne(n: int): (r: int)
    ensures r >= 1 && (n >= 1 ==> r == n) && (n < 1 ==> r == 1)
  {
    if n < 1 then 1 else n
  }

  function Optional(key: string, text: string): seq<Field> {
    if text == "" then [] else [Field(key, Text(text))]
  }

  function RowGroups(part: Part): seq<Field> {
    if part.startRg >= 0 && part.endRg >= 0 then
      [Field("row_groups", List([List([IntValue(part.startRg), IntValue(part.endRg)])]))]
    else []
  }

  function Common(part: Part, settings: Settings): seq<Field> {
    [Field("parallelism", IntValue(AtLeastOne(part.parallelism))), Field("max_memory", Text(settings.maxMemory)),
     Field("cache", Bool(settings.cache))]
  }

  /** What an aggregate request says, entry by entry. */
  function AggFields(part: Part, settings: Settings, filter: string, groupBy: string, aggregate: string): seq<Field> {
    [Field("inputs", List([Text(part.filePath)]))] + RowGroups(part) + Common(part, settings) + Optional("filter", filter)
    + Optional("group_by", groupBy) + Optional("aggregate", aggregate)
  }

  /** What a row scan request says. */
  function ScanFields(sql: string, part: Part, settings: Settings): seq<Field> {
    [Field("sql", Text(sql))] + Common(part, settings)
  }

  // ---- Building ----

  /** An object open for more entries. */
  predicate Opened(sb: string, fields: seq<Field>) {
    fields != [] && sb == "{" + PrintFields(fields)
  }

  lemma PrintFieldsOnce(f: Field, fields: seq<Field>)
    ensures PrintFields([f] + fields) == PrintField(f) + if fields == [] then "" else "," + PrintFields(fields)
  {
    hide PrintField;
    Slices.Uncons(f, fields);
    assert PrintField(f) + "" == PrintField(f);
  }

  lemma {:induction false} PrintFieldsSnoc(fields: seq<Field>, f: Field)
    requires fields != []
    ensures PrintFields(fields + [f]) == PrintFields(fields) + ("," + PrintField(f))
  {
    hide PrintFields, PrintField;
    var head, tail := fields[0], fields[1..];
    assert fields == [head] + tail;
    Slices.Assoc([head], tail, [f]);
    PrintFieldsOnce(head, tail);
    PrintFieldsOnce(head, tail + [f]);
    if tail == [] {
      PrintFieldsOnce(f, []);
      assert [f] + [] == [f] && tail + [f] == [f];
      assert PrintField(head) + "" == PrintField(head);
      assert PrintField(f) + "" == PrintField(f);
    } else {
      PrintFieldsSnoc(tail, f);
      assert "," + (PrintFields(tail) + ("," + PrintField(f))) == ("," + PrintFields(tail)) + ("," + PrintField(f));
      Slices.Assoc(PrintField(head), "," + PrintFields(tail), "," + PrintField(f));
    }
  }

  /** Characters that stand for themselves between quotes. */
  predicate Simple(key: string) {
    forall i :: 0 <= i < |key| ==> key[i] >= ' ' && key[i] != '"' && key[i] != '\\'
  }

  lemma {:induction false} SimpleQuote(key: string)
    requires Simple(key)
    ensures Escaped(key) == key && Quote(key) == "\"" + key + "\""
  {
    if key != [] {
      SimpleQuote(key[1..]);
      assert Escape(key[0]) == [key[0]];
      assert [key[0]] + key[1..] == key;
    }
  }

  /** Appending the lead `,"key":` and a value is adding an entry. */
  lemma Append(sb: string, fields: seq<Field>, f: Field, lead: string)
    requires Opened(sb, fields) && Simple(f.key) && lead == ",\"" + f.key + "\":"
    ensures Opened(sb + lead + Print(f.value), fields + [f])
  {
    hide PrintFields, Print, Quote;
    SimpleQuote(f.key);
    PrintFieldsSnoc(fields, f);
    AppendText("{", PrintFields(fields), f.key, Print(f.value), lead);
  }

  lemma AppendText(open: string, done: string, key: string, value: string, lead: string)
    requires lead == ",\"" + key + "\":"
    ensures open + done + lead + value == open + (done + ("," + ("\"" + key + "\"" + (":" + value))))
  {
    assert lead == "," + ("\"" + key + "\"" + ":");
    assert lead + value == "," + ("\"" + key + "\"" + (":" + value));
    assert open + done + lead + value == open + (done + (lead + value));
  }

  lemma OpenFirst(f: Field, lead: string)
    requires Simple(f.key) && lead == "{\"" + f.key + "\":"
    ensures Opened(lead + Print(f.value), [f])
  {
    hide Print, Quote, PrintFields;
    SimpleQuote(f.key);
    PrintFieldsOnce(f, []);
    assert [f] + [] == [f] && PrintField(f) + "" == PrintField(f);
    OpenText(f.key, Print(f.value), lead);
  }

  lemma OpenText(key: string, value: string, lead: string)
    requires lead == "{\"" + key + "\":"
    ensures lead + value == "{" + ("\"" + key + "\"" + (":" + value))
  {
    assert lead == "{" + ("\"" + key + "\"" + ":");
    assert "\"" + key + "\"" + ":" + value == "\"" + key + "\"" + (":" + value);
    assert lead + value == "{" + (("\"" + key + "\"" + ":") + value);
  }

  method AppendCommon(sb: string, ghost fields: seq<Field>, part: Part, settings: Settings) returns (r: string)
    requires Opened(sb, fields)
    ensures Opened(r, fields + Common(part, settings))
  {
    hide Opened, Quote;
    var common := Common(part, settings);
    Append(sb, fields, common[0], ",\"parallelism\":");
    r := sb + ",\"parallelism\":" + SqlText.IntText(AtLeastOne(part.parallelism));
    Append(r, fields + [common[0]], common[1], ",\"max_memory\":");
    r := AppendQuoted(settings.maxMemory, r + ",\"max_memory\":");
    Append(r, fields + [common[0]] + [common[1]], common[2], ",\"cache\":");
    r := r + ",\"cache\":" + if settings.cache then "true" else "false";
    assert fields + [common[0]] + [common[1]] + [common[2]] == fields + common;
  }

  method AppendOptional(sb: string, ghost fields: seq<Field>, key: string, lead: string, text: string) returns (r: string)
    requires Opened(sb, fields) && Simple(key) && lead == ",\"" + key + "\":"
    ensures Opened(r, fields + Optional(key, text))
  {
    hide Opened, Quote;
    assert fields + [] == fields;
    r := sb;
    if text != "" {
      Append(sb, fields, Field(key, Text(text)), lead);
      r := AppendQuoted(text, sb + lead);
    }
  }

  /** The builder of an aggregate request writes exactly its entries. */
  method BuildStructuredAggRequest(part: Part, settings: Settings, filter: string, groupBy: string, aggregate: string)
    returns (sb: string)
    ensures sb == Print(Object(AggFields(part, settings, filter, groupBy, aggregate)))
  {
    hide Opened, Quote, Common, Optional, RowGroups, Print;
    var inputs := Field("inputs", List([Text(part.filePath)]));
    sb := AppendQuoted(part.filePath, "{\"inputs\":[");
    sb := sb + "]";
    OneText(part.filePath);
    OpenFirst(inputs, "{\"inputs\":");
    ghost var fields := [inputs];
    sb := AppendRowGroups(sb, fields, part);
    fields := fields + RowGroups(part);
    sb := AppendCommon(sb, fields, part, settings);
    fields := fields + Common(part, settings);
    sb := AppendOptional(sb, fields, "filter", ",\"filter\":", filter);
    fields := fields + Optional("filter", filter);
    sb := AppendOptional(sb, fields, "group_by", ",\"group_by\":", groupBy);
    fields := fields + Optional("group_by", groupBy);
    sb := AppendOptional(sb, fields, "aggregate", ",\"aggregate\":", aggregate);
    fields := fields + Optional("aggregate", aggregate);
    Close(sb, fields);
    sb := sb + "}";
  }

  lemma OneText(s: string)
    ensures "{\"inputs\":[" + Quote(s) + "]" == "{\"inputs\":" + Print(List([Text(s)]))
  {
    hide Quote;
    assert PrintItems([Text(s)]) == Print(Text(s)) == Quote(s);
    assert "{\"inputs\":[" == "{\"inputs\":" + "[";
    assert "{\"inputs\":" + "[" + Quote(s) + "]" == "{\"inputs\":" + ("[" + Quote(s) + "]");
  }

  lemma Close(sb: string, fields: seq<Field>)
    requires Opened(sb, fields)
    ensures sb + "}" == Print(Object(fields))
  {
    hide PrintFields;
  }

  method AppendRowGroups(sb: string, ghost fields: seq<Field>, part: Part) returns (r: string)
    requires Opened(sb, fields)
    ensures Opened(r, fields + RowGroups(part))
  {
    hide Opened, Print;
    assert fields + [] == fields;
    r := sb;
    if part.startRg >= 0 && part.endRg >= 0 {
      var a, b := SqlText.IntText(part.startRg), SqlText.IntText(part.endRg);
      Append(sb, fields, RowGroups(part)[0], ",\"row_groups\":");
      RangeText(a, b, sb);
      r := sb + ",\"row_groups\":[[" + a + "," + b + "]]";
    }
  }

  lemma RangeText(a: string, b: string, sb: string)
    ensures sb + ",\"row_groups\":" + Print(List([List([Number(a), Number(b)])])) == sb + ",\"row_groups\":[[" + a + "," + b + "]]"
  {
    var items := [Number(a), Number(b)];
    assert items[1..] == [Number(b)];
    assert PrintItems([Number(b)]) == Print(Number(b)) == b;
    assert PrintItems(items) == a + ("," + b);
    var list := List(items);
    assert PrintItems([list]) == Print(list) == "[" + (a + ("," + b)) + "]";
    assert Print(List([list])) == "[[" + a + "," + b + "]]";
    assert ",\"row_groups\":" + "[[" == ",\"row_groups\":[[";
    assert sb + ",\"row_groups\":" + ("[[" + a + "," + b + "]]") == sb + (",\"row_groups\":" + "[[") + a + "," + b + "]]";
  }

  /** The builder of a row scan refuses a NUL in a name or the path, and else writes its SQL and settings. */
  method BuildSqlScanRequest(names: seq<string>, part: Part, settings: Settings, filter: string)
    returns (r: Option<string>)
    requires names != []
    ensures r.Some? <==> NoNul(names, part.filePath)
    ensures r.Some? ==> r.value == Print(Object(ScanFields(ScanText(names, part.filePath, filter), part, settings)))
  {
    hide Opened, Quote, Common, Print, ScanText;
    var sql := RowScanSql(names, part.filePath, filter);
    if sql.None? { return None; }
    var req := AppendQuoted(sql.value, "{\"sql\":");
    ghost var first := Field("sql", Text(sql.value));
    assert Print(Text(sql.value)) == Quote(sql.value) by { TextPrints(sql.value); }
    OpenFirst(first, "{\"sql\":");
    req := AppendCommon(req, [first], part, settings);
    Close(req, [first] + Common(part, settings));
    r := Some(req + "}");
  }

  lemma TextPrints(s: string)
    ensures Print(Text(s)) == Quote(s)
  {
  }

  // ---- Reading the requests ----

  /** The builders' keys, in the order they are written. */
  function Rank(key: string): nat {
    if key == "inputs" || key == "sql" then 0
    else if key == "row_groups" then 1
    else if key == "parallelism" then 2
    else if key == "max_memory" then 3
    else if key == "cache" then 4
    else if key == "filter" then 5
    else if key == "group_by" then 6
    else 7
  }

  /** Printable entries whose keys ascend in rank from `lo` to below `hi`. */
  predicate Ranked(fields: seq<Field>, lo: nat, hi: nat) {
    && (forall i :: 0 <= i < |fields| ==> Printable(fields[i].value) && lo <= Rank(fields[i].key) < hi)
    && (forall i, j :: 0 <= i < j < |fields| ==> Rank(fields[i].key) < Rank(fields[j].key))
  }

  lemma RankedBoth(a: seq<Field>, b: seq<Field>, lo: nat, mid: nat, hi: nat)
    requires Ranked(a, lo, mid) && Ranked(b, mid, hi) && lo <= mid <= hi
    ensures Ranked(a + b, lo, hi)
  {
    hide Rank, Printable;
  }

  lemma IntPrintable(n: int)
    ensures Printable(IntValue(n))
  {
  }

  lemma CommonRanked(part: Part, settings: Settings)
    ensures Ranked(Common(part, settings), 2, 5)
  {
    IntPrintable(AtLeastOne(part.parallelism));
  }

  lemma RowGroupsRanked(part: Part)
    ensures Ranked(RowGroups(part), 1, 2)
  {
    IntPrintable(part.startRg);
    IntPrintable(part.endRg);
    var range := List([IntValue(part.startRg), IntValue(part.endRg)]);
    assert Printable(range);
    assert Printable(List([range]));
  }

  lemma OptionalRanked(key: string, text: string, rank: nat)
    requires Rank(key) == rank
    ensures Ranked(Optional(key, text), rank, rank + 1)
  {
    assert Printable(Text(text));
  }

  lemma AggRanked(part: Part, settings: Settings, filter: string, groupBy: string, aggregate: string)
    ensures Ranked(AggFields(part, settings, filter, groupBy, aggregate), 0, 8)
  {
    hide Ranked, RowGroups, Common, Optional;
    var inputs := [Field("inputs", List([Text(part.filePath)]))];
    InputsRanked(part.filePath);
    RowGroupsRanked(part);
    CommonRanked(part, settings);
    OptionalRanked("filter", filter, 5);
    OptionalRanked("group_by", groupBy, 6);
    OptionalRanked("aggregate", aggregate, 7);
    RankedBoth(inputs, RowGroups(part), 0, 1, 2);
    RankedBoth(inputs + RowGroups(part), Common(part, settings), 0, 2, 5);
    var some := inputs + RowGroups(part) + Common(part, settings);
    RankedBoth(some, Optional("filter", filter), 0, 5, 6);
    RankedBoth(some + Optional("filter", filter), Optional("group_by", groupBy), 0, 6, 7);
    RankedBoth(some + Optional("filter", filter) + Optional("group_by", groupBy), Optional("aggregate", aggregate), 0, 7, 8);
  }

  lemma InputsRanked(path: string)
    ensures Ranked([Field("inputs", List([Text(path)]))], 0, 1)
  {
    assert Printable(Text(path));
    assert Printable(List([Text(path)]));
  }

  lemma RankedReads(fields: seq<Field>)
    requires Ranked(fields, 0, 8) && |fields| > 1
    ensures ReadValue(Print(Object(fields))) == SqlText.Got(Object(fields), "")
  {
    hide Rank, Print, ReadValue;
    forall i, j | 0 <= i < j < |fields| ensures fields[i].key != fields[j].key {
      assert Rank(fields[i].key) < Rank(fields[j].key);
    }
    PrintRoundTrip(Object(fields), "");
    assert Print(Object(fields)) + "" == Print(Object(fields));
    assert Closed(fields) == Object(fields);
  }

  /** An aggregate request is read back as exactly the path, row groups, settings and texts put in. */
  lemma AggRequestRoundTrip(part: Part, settings: Settings, filter: string, groupBy: string, aggregate: string)
    ensures var fields := AggFields(part, settings, filter, groupBy, aggregate);
            ReadValue(Print(Object(fields))) == SqlText.Got(Object(fields), "")
  {
    hide Ranked, RowGroups, Optional, Print, ReadValue;
    AggRanked(part, settings, filter, groupBy, aggregate);
    RankedReads(AggFields(part, settings, filter, groupBy, aggregate));
  }

  /** The entry is there, with this value and no other. */
  predicate Says(fields: seq<Field>, key: string, v: Value) {
    Field(key, v) in fields && forall f :: f in fields && f.key == key ==> f.value == v
  }

  predicate Silent(fields: seq<Field>, key: string) { forall f :: f in fields ==> f.key != key }

  /** The text of an integer, in decimal. */
  predicate SaysInt(fields: seq<Field>, key: string, n: int) { Says(fields, key, Number(SqlText.IntText(n))) }

  /** An entry for a text is there exactly when the text is not empty. */
  predicate SaysText(fields: seq<Field>, key: string, text: string) {
    if text == "" then Silent(fields, key) else Says(fields, key, Text(text))
  }

  /** What is read back, entry by entry: the path; the row groups, when both bounds are given; a parallelism of one at least; the
      memory limit and the cache flag; and of filter, groups and aggregates those that are not empty. */
  lemma AggRequestSays(part: Part, settings: Settings, filter: string, groupBy: string, aggregate: string)
    ensures var read := ReadValue(Print(Object(AggFields(part, settings, filter, groupBy, aggregate))));
      && read.Got? && read.rest == "" && read.v.Object?
      && Says(read.v.fields, "inputs", List([Text(part.filePath)]))
      && (part.startRg >= 0 && part.endRg >= 0 ==>
           Says(read.v.fields, "row_groups", List([List([Number(SqlText.IntText(part.startRg)), Number(SqlText.IntText(part.endRg))])])))
      && (part.startRg < 0 || part.endRg < 0 ==> Silent(read.v.fields, "row_groups"))
      && (part.parallelism >= 1 ==> SaysInt(read.v.fields, "parallelism", part.parallelism))
      && (part.parallelism < 1 ==> SaysInt(read.v.fields, "parallelism", 1))
      && Says(read.v.fields, "max_memory", Text(settings.maxMemory)) && Says(read.v.fields, "cache", Bool(settings.cache))
      && SaysText(read.v.fields, "filter", filter) && SaysText(read.v.fields, "group_by", groupBy)
      && SaysText(read.v.fields, "aggregate", aggregate)
  {
    hide Print, ReadValue, SqlText.IntText, Ranked, Says, Silent, AggFields, Common, Optional;
    AggRequestRoundTrip(part, settings, filter, groupBy, aggregate);
    var fields := AggFields(part, settings, filter, groupBy, aggregate);
    AggRanked(part, settings, filter, groupBy, aggregate);
    Entries(part, settings, filter, groupBy, aggregate);
    forall f | f in fields ensures Says(fields, f.key, f.value) { SaysItOnce(fields, f); }
    if part.startRg < 0 || part.endRg < 0 { SilentIn(part, settings, filter, groupBy, aggregate, "row_groups"); }
    if filter == "" { SilentIn(part, settings, filter, groupBy, aggregate, "filter"); }
    if groupBy == "" { SilentIn(part, settings, filter, groupBy, aggregate, "group_by"); }
    if aggregate == "" { SilentIn(part, settings, filter, groupBy, aggregate, "aggregate"); }
  }

  lemma SaysItOnce(fields: seq<Field>, f: Field)
    requires Ranked(fields, 0, 8) && f in fields
    ensures Says(fields, f.key, f.value)
  {
    hide Rank;
    var i :| 0 <= i < |fields| && fields[i] == f;
    forall g | g in fields && g.key == f.key ensures g.value == f.value {
      var j :| 0 <= j < |fields| && fields[j] == g;
      assert i == j;
    }
  }

  lemma Entries(part: Part, settings: Settings, filter: string, groupBy: string, aggregate: string)
    ensures var fields := AggFields(part, settings, filter, groupBy, aggregate);
      && Field("inputs", List([Text(part.filePath)])) in fields
      && (part.startRg >= 0 && part.endRg >= 0 ==>
           Field("row_groups", List([List([IntValue(part.startRg), IntValue(part.endRg)])])) in fields)
      && Field("parallelism", IntValue(AtLeastOne(part.parallelism))) in fields
      && Field("max_memory", Text(settings.maxMemory)) in fields && Field("cache", Bool(settings.cache)) in fields
      && (filter != "" ==> Field("filter", Text(filter)) in fields)
      && (groupBy != "" ==> Field("group_by", Text(groupBy)) in fields)
      && (aggregate != "" ==> Field("aggregate", Text(aggregate)) in fields)
  {
    var fields := AggFields(part, settings, filter, groupBy, aggregate);
    var common := Common(part, settings);
    assert fields[0] == Field("inputs", List([Text(part.filePath)]));
    assert common[0] in common && common[1] in common && common[2] in common;
    assert part.startRg >= 0 && part.endRg >= 0 ==> RowGroups(part)[0] in RowGroups(part);
    assert filter != "" ==> Optional("filter", filter)[0] in Optional("filter", filter);
    assert groupBy != "" ==> Optional("group_by", groupBy)[0] in Optional("group_by", groupBy);
    assert aggregate != "" ==> Optional("aggregate", aggregate)[0] in Optional("aggregate", aggregate);
  }

  lemma OutOfRank(fields: seq<Field>, lo: nat, hi: nat, key: string)
    requires Ranked(fields, lo, hi) && !(lo <= Rank(key) < hi)
    ensures Silent(fields, key)
  {
    hide Rank;
  }

  lemma SilentBoth(a: seq<Field>, b: seq<Field>, key: string)
    requires Silent(a, key) && Silent(b, key)
    ensures Silent(a + b, key)
  {
  }

  lemma NothingSaid(key: string)
    ensures Silent([], key)
  {
  }

  /** An entry that is left out has no other in its place. */
  lemma SilentIn(part: Part, settings: Settings, filter: string, groupBy: string, aggregate: string, key: string)
    requires Rank(key) == 1 ==> RowGroups(part) == []
    requires Rank(key) == 5 ==> filter == ""
    requires Rank(key) == 6 ==> groupBy == ""
    requires Rank(key) == 7 ==> aggregate == ""
    requires Rank(key) == 1 || Rank(key) >= 5
    ensures Silent(AggFields(part, settings, filter, groupBy, aggregate), key)
  {
    NothingSaid(key);
    var inputs, ranges, common := [Field("inputs", List([Text(part.filePath)]))], RowGroups(part), Common(part, settings);
    var f, g, h := Optional("filter", filter), Optional("group_by", groupBy), Optional("aggregate", aggregate);
    InputsRanked(part.filePath);
    RowGroupsRanked(part);
    CommonRanked(part, settings);
    OptionalRanked("filter", filter, 5);
    OptionalRanked("group_by", groupBy, 6);
    OptionalRanked("aggregate", aggregate, 7);
    hide Rank, Ranked, Silent, RowGroups, Common;
    OutOfRank(inputs, 0, 1, key);
    if Rank(key) != 1 { OutOfRank(ranges, 1, 2, key); }
    OutOfRank(common, 2, 5, key);
    if Rank(key) != 5 { OutOfRank(f, 5, 6, key); }
    if Rank(key) != 6 { OutOfRank(g, 6, 7, key); }
    if Rank(key) != 7 { OutOfRank(h, 7, 8, key); }
    hide Optional;
    SilentBoth(inputs, ranges, key);
    SilentBoth(inputs + ranges, common, key);
    SilentBoth(inputs + ranges + common, f, key);
    SilentBoth(inputs + ranges + common + f, g, key);
    SilentBoth(inputs + ranges + common + f + g, h, key);
  }

  /** A scan request is read back as its SQL, and the SQL as the original column names, path and filter. */
  lemma ScanRequestRoundTrip(names: seq<string>, part: Part, settings: Settings, filter: string, more: seq<SqlText.Token>)
    requires names != [] && NoNul(names, part.filePath) && (filter != "" ==> SqlText.Lex(filter) == Some(more))
    ensures var sql := ScanText(names, part.filePath, filter);
            && ReadValue(Print(Object(ScanFields(sql, part, settings)))) == SqlText.Got(Object(ScanFields(sql, part, settings)), "")
            && SqlText.Lex(sql)
            == Some(ScanTokens(names, part.filePath) + if filter == "" then [] else [SqlText.Word("WHERE")] + more)
  {
    hide Ranked, Print, ReadValue, ScanText, ScanTokens, SqlText.Lex;
    var sql := ScanText(names, part.filePath, filter);
    ScanRoundTrip(names, part.filePath, filter, more);
    CommonRanked(part, settings);
    SqlRanked(sql);
    RankedBoth([Field("sql", Text(sql))], Common(part, settings), 0, 2, 5);
    RankedWider(ScanFields(sql, part, settings));
    RankedReads(ScanFields(sql, part, settings));
  }

  lemma SqlRanked(sql: string)
    ensures Ranked([Field("sql", Text(sql))], 0, 2)
  {
    assert Printable(Text(sql));
  }

  lemma RankedWider(fields: seq<Field>)
    requires Ranked(fields, 0, 5)
    ensures Ranked(fields, 0, 8)
  {
  }
}
