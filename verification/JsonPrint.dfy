/** Compact JSON as the request builders write it, and reading it back. A printed value is read as that value and
    nothing after it is touched, which is what lets a request be taken apart entry by entry. */
module JsonPrint {
  import opened SqlText
  import opened Json
  import Slices

  function Print(v: Value): string {
    match v
    case Null => "null"
    case Bool(b) => if b then "true" else "false"
    case Number(text) => text
    case Text(s) => Quote(s)
    case Bytes(base64) => "{\"base64\":" + Quote(base64) + "}"
    case List(items) => "[" + PrintItems(items) + "]"
    case Object(fields) => "{" + PrintFields(fields) + "}"
  }

  function PrintItems(items: seq<Value>): string {
    if items == [] then ""
    else if |items| == 1 then Print(items[0])
    else Print(items[0]) + ("," + PrintItems(items[1..]))
  }

  function PrintField(f: Field): string {
    Quote(f.key) + (":" + Print(f.value))
  }

  function PrintFields(fields: seq<Field>): string {
    if fields == [] then ""
    else if |fields| == 1 then PrintField(fields[0])
    else PrintField(fields[0]) + ("," + PrintFields(fields[1..]))
  }

  predicate HasKey(fields: seq<Field>, key: string) {
    exists i :: 0 <= i < |fields| && fields[i].key == key
  }

  /** What the builders write: numbers with a text, and objects with distinct keys that are not taken for bytes. */
  predicate Printable(v: Value) {
    match v
    case Number(text) => text != [] && forall i :: 0 <= i < |text| ==> IsNumeric(text[i])
    case Bytes(_) => false
    case List(items) => forall i :: 0 <= i < |items| ==> Printable(items[i])
    case Object(fields) =>
      && (forall i :: 0 <= i < |fields| ==> Printable(fields[i].value))
      && (forall i, j :: 0 <= i < j < |fields| ==> fields[i].key != fields[j].key)
      && !(|fields| == 1 && fields[0].key == "base64")
    case _ => true
  }

  /** A number ends where its text does. */
  predicate Separate(v: Value, rest: string) {
    v.Number? ==> rest == [] || !IsNumeric(rest[0])
  }

  lemma {:induction false} NumericRunOf(text: string, rest: string)
    requires (forall i :: 0 <= i < |text| ==> IsNumeric(text[i])) && (rest == [] || !IsNumeric(rest[0]))
    ensures NumericRun(text + rest) == |text|
  {
    if text == [] {
      assert text + rest == rest;
    } else {
      NumericRunOf(text[1..], rest);
      assert (text + rest)[1..] == text[1..] + rest;
    }
  }

  lemma NothingToSkip(t: string)
    requires t == [] || !IsSpace(t[0])
    ensures Skip(t) == t
  {
  }

  lemma NumberRoundTrip(text: string, rest: string)
    requires Printable(Number(text)) && Separate(Number(text), rest)
    ensures ReadValue(text + rest) == Got(Number(text), rest)
  {
    hide ReadText, ReadObject, ReadList, ReadBoolean, ReadNull, NumericRun;
    var t := text + rest;
    NumericRunOf(text, rest);
    NothingToSkip(t);
    assert IsNumeric(t[0]) && t[..|text|] == text && t[|text|..] == rest;
  }

  lemma TextRoundTrip(s: string, rest: string)
    ensures ReadValue(Quote(s) + rest) == Got(Text(s), rest)
    ensures ReadKey(Quote(s) + rest) == Got(s, rest)
  {
    hide ReadText, ReadObject, ReadList, ReadBoolean, ReadNull, ReadNumber, Escaped;
    QuoteRoundTrip(s, rest);
    var t := Quote(s) + rest;
    NothingToSkip(t);
    assert t[1..] == Escaped(s) + (['"'] + rest);
  }

  lemma KeywordRoundTrip(v: Value, rest: string)
    requires v.Null? || v.Bool?
    ensures ReadValue(Print(v) + rest) == Got(v, rest)
  {
    hide ReadText, ReadObject, ReadList, ReadNumber;
    var t := Print(v) + rest;
    NothingToSkip(t);
    assert Print(v) <= t && t[|Print(v)|..] == rest;
  }

  lemma {:induction false} PutNew(fields: seq<Field>, key: string, value: Value)
    requires !HasKey(fields, key)
    ensures Put(fields, key, value) == fields + [Field(key, value)]
  {
    if fields != [] {
      assert fields[0].key != key;
      forall i | 0 <= i < |fields[1..]| ensures fields[1..][i].key != key { assert fields[i + 1].key != key; }
      PutNew(fields[1..], key, value);
    }
  }

  lemma EntryStep(f: Field, t: string, rest: string)
    requires ReadValue(t) == Got(f.value, rest)
    ensures ReadEntry(Quote(f.key) + (":" + t)) == Got(f, rest)
  {
    hide ReadValue, ReadKey, Escaped;
    TextRoundTrip(f.key, ":" + t);
    var whole := Quote(f.key) + (":" + t);
    NothingToSkip(whole);
    NothingToSkip(":" + t);
    assert (":" + t)[1..] == t;
  }

  lemma FieldsStep(t: string, fields: seq<Field>, f: Field, mark: char, rest: string)
    requires ReadEntry(t) == Got(f, [mark] + rest) && !HasKey(fields, f.key)
    ensures mark == ',' ==> ReadFields(t, fields) == ReadFields(rest, fields + [f])
    ensures mark == '}' ==> ReadFields(t, fields) == Got(Closed(fields + [f]), rest)
  {
    hide ReadEntry;
    PutNew(fields, f.key, f.value);
    assert t != [];
    if mark == ',' || mark == '}' { NothingToSkip([mark] + rest); }
    Slices.Uncons(mark, rest);
  }

  lemma ItemsStep(t: string, items: seq<Value>, v: Value, mark: char, rest: string)
    requires t != [] && ReadValue(t) == Got(v, [mark] + rest)
    ensures mark == ',' ==> ReadItems(t, items) == ReadItems(rest, items + [v])
    ensures mark == ']' ==> ReadItems(t, items) == Got(List(items + [v]), rest)
  {
    hide ReadValue;
    if mark == ',' || mark == ']' { NothingToSkip([mark] + rest); }
    Slices.Uncons(mark, rest);
  }

  lemma PrintStarts(v: Value)
    requires Printable(v)
    ensures Print(v) != [] && !IsSpace(Print(v)[0]) && Print(v)[0] != ']' && Print(v)[0] != '}'
  {
  }

  /** Reading what was written gives the value back, and leaves what follows. */
  lemma {:induction false} PrintRoundTrip(v: Value, rest: string)
    requires Printable(v) && Separate(v, rest)
    ensures ReadValue(Print(v) + rest) == Got(v, rest)
    decreases v, 1
  {
    hide ReadValue, Quote, PrintFields, PrintItems;
    match v
    case Number(text) => NumberRoundTrip(text, rest);
    case Text(s) => TextRoundTrip(s, rest);
    case List(items) =>
      if items == [] { EmptyList(rest); } else {
        ItemsRoundTrip(v, 0, [], rest);
        assert items[0..] == items && [] + items == items;
        ListOpens(items, rest);
      }
    case Object(fields) =>
      if fields == [] { EmptyObject(rest); } else {
        FieldsRoundTrip(v, 0, [], rest);
        assert fields[0..] == fields && [] + fields == fields;
        ObjectOpens(fields, rest);
      }
    case _ => KeywordRoundTrip(v, rest);
  }

  lemma {:induction false} FieldsRoundTrip(v: Value, i: nat, done: seq<Field>, rest: string)
    requires v.Object? && Printable(v) && i < |v.fields| && done == v.fields[..i]
    ensures ReadFields(PrintFields(v.fields[i..]) + ("}" + rest), done) == Got(Closed(done + v.fields[i..]), rest)
    decreases v, 0, |v.fields| - i
  {
    hide ReadFields, ReadValue, Print, PrintFields, Closed, Quote, ReadEntry;
    var f, tail := v.fields[i], v.fields[i + 1..];
    assert v.fields[i..] == [f] + tail;
    FieldText(f, tail, rest);
    assert !HasKey(done, f.key);
    if tail == [] {
      PrintRoundTrip(f.value, "}" + rest);
      EntryStep(f, Print(f.value) + ("}" + rest), "}" + rest);
      FieldsStep(Quote(f.key) + (":" + (Print(f.value) + ("}" + rest))), done, f, '}', rest);
      assert done + v.fields[i..] == done + [f];
    } else {
      var more := PrintFields(tail) + ("}" + rest);
      PrintRoundTrip(f.value, "," + more);
      EntryStep(f, Print(f.value) + ("," + more), "," + more);
      FieldsStep(Quote(f.key) + (":" + (Print(f.value) + ("," + more))), done, f, ',', more);
      assert done + [f] == v.fields[..i + 1];
      FieldsRoundTrip(v, i + 1, done + [f], rest);
      Slices.Assoc(done, [f], tail);
    }
  }

  lemma FieldText(f: Field, tail: seq<Field>, rest: string)
    ensures PrintFields([f] + tail) + ("}" + rest)
         == Quote(f.key) + (":" + (Print(f.value) + if tail == [] then "}" + rest else "," + (PrintFields(tail) + ("}" + rest))))
  {
    hide Print, Quote;
    assert ([f] + tail)[1..] == tail;
  }

  lemma {:induction false} ItemsRoundTrip(v: Value, i: nat, done: seq<Value>, rest: string)
    requires v.List? && Printable(v) && i < |v.items| && done == v.items[..i]
    ensures ReadItems(PrintItems(v.items[i..]) + ("]" + rest), done) == Got(List(done + v.items[i..]), rest)
    decreases v, 0, |v.items| - i
  {
    hide ReadItems, ReadValue, Print, PrintItems;
    var item, tail := v.items[i], v.items[i + 1..];
    assert v.items[i..] == [item] + tail;
    ItemText(item, tail, rest);
    PrintStarts(item);
    if tail == [] {
      PrintRoundTrip(item, "]" + rest);
      ItemsStep(Print(item) + ("]" + rest), done, item, ']', rest);
      assert done + v.items[i..] == done + [item];
    } else {
      var more := PrintItems(tail) + ("]" + rest);
      PrintRoundTrip(item, "," + more);
      ItemsStep(Print(item) + ("," + more), done, item, ',', more);
      assert done + [item] == v.items[..i + 1];
      ItemsRoundTrip(v, i + 1, done + [item], rest);
      Slices.Assoc(done, [item], tail);
    }
  }

  lemma ItemText(item: Value, tail: seq<Value>, rest: string)
    ensures PrintItems([item] + tail) + ("]" + rest)
         == Print(item) + if tail == [] then "]" + rest else "," + (PrintItems(tail) + ("]" + rest))
  {
    hide Print;
    assert ([item] + tail)[1..] == tail;
  }

  lemma EmptyList(rest: string)
    ensures ReadValue(Print(List([])) + rest) == Got(List([]), rest)
  {
    hide ReadItems;
    var t := "[]" + rest;
    NothingToSkip(t);
    assert t[1..] == "]" + rest && ("]" + rest)[1..] == rest;
    NothingToSkip("]" + rest);
    assert Print(List([])) + rest == t;
  }

  lemma EmptyObject(rest: string)
    ensures ReadValue(Print(Object([])) + rest) == Got(Object([]), rest)
  {
    hide ReadFields;
    var t := "{}" + rest;
    NothingToSkip(t);
    assert t[1..] == "}" + rest && ("}" + rest)[1..] == rest;
    NothingToSkip("}" + rest);
    assert Print(Object([])) + rest == t;
  }

  lemma ListOpens(items: seq<Value>, rest: string)
    requires items != [] && Printable(items[0])
    requires ReadItems(PrintItems(items) + ("]" + rest), []) == Got(List(items), rest)
    ensures ReadValue(Print(List(items)) + rest) == Got(List(items), rest)
  {
    hide ReadItems, ReadText, ReadNumber, ReadBoolean, ReadNull, ReadObject;
    var inner := PrintItems(items) + ("]" + rest);
    assert inner != [] && !IsSpace(inner[0]) && inner[0] != ']' by {
      PrintStarts(items[0]);
      assert PrintItems(items)[0] == Print(items[0])[0];
    }
    Opens('[', inner);
    NothingToSkip(inner);
    assert Print(List(items)) + rest == ['['] + inner;
  }

  lemma ObjectOpens(fields: seq<Field>, rest: string)
    requires fields != []
    requires ReadFields(PrintFields(fields) + ("}" + rest), []) == Got(Closed(fields), rest)
    ensures ReadValue(Print(Object(fields)) + rest) == Got(Closed(fields), rest)
  {
    hide ReadFields, ReadText, ReadNumber, ReadBoolean, ReadNull, ReadList;
    var inner := PrintFields(fields) + ("}" + rest);
    assert inner != [] && inner[0] == '"' by {
      assert PrintFields(fields)[0] == Quote(fields[0].key)[0];
    }
    Opens('{', inner);
    NothingToSkip(inner);
    assert Print(Object(fields)) + rest == ['{'] + inner;
  }

  lemma Opens(c: char, inner: string)
    requires !IsSpace(c)
    ensures Skip([c] + inner) == [c] + inner && ([c] + inner)[1..] == inner
  {
    NothingToSkip([c] + inner);
  }
}
