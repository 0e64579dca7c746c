/** Everything the writer writes is canonical, so canonical byte strings are exactly the writer's outputs. */
module ThriftImage {
  import opened Bits
  import opened Thrift
  import opened ThriftRoundTrip
  import opened ThriftCanonical
  import Slices
  import StableSort

  lemma {:induction false} VarintIsMinimal(v: nat, rest: seq<byte>)
    ensures MinimalVarint(WriteVarint(v) + rest)
    ensures v > 0 ==> WriteVarint(v)[|WriteVarint(v)| - 1] != 0
  {
    VarintRoundTrip(v, rest);
    if v >= 128 { VarintIsMinimal(v / 128, rest); }
  }

  lemma IntIsCanonical(n: int, rest: seq<byte>)
    requires Int64(n)
    ensures CanonicalInt(WriteZigzag(n) + rest)
  {
    hide ReadVarint, WriteVarint, Zigzag;
    VarintIsMinimal(Zigzag(n), rest);
    ZigzagRoundTrip(n, rest);
  }

  lemma ListHeadIsCanonical(et: Tag, count: nat, rest: seq<byte>)
    ensures CanonicalListHead(WriteListHead(et, count) + rest)
  {
    hide ReadVarint, WriteVarint, MinimalVarint, ReadListHead;
    ListHeadRoundTrip(et, count, rest);
    if count >= 15 {
      VarintIsMinimal(count, rest);
      Slices.Assoc([240 + et], WriteVarint(count), rest);
      Slices.Uncons(240 + et, WriteVarint(count) + rest);
    } else {
      assert (count * 16 + et) / 16 == count;
    }
  }

  lemma FieldHeadIsCanonical(first: bool, last: int, fid: int, wire: Tag, rest: seq<byte>)
    requires Int64(fid) && wire != 0 && (first || last <= fid)
    ensures CanonicalFieldHead(first, last, WriteFieldHead(last, fid, wire) + rest)
  {
    hide ReadFieldHead, CanonicalInt, WriteZigzag;
    FieldHeadRoundTrip(last, fid, wire, rest);
    if 0 < fid - last <= 15 {
      assert ((fid - last) * 16 + wire) / 16 == fid - last;
    } else {
      IntIsCanonical(fid, rest);
      Slices.Assoc([wire], WriteZigzag(fid), rest);
      Slices.Uncons(wire, WriteZigzag(fid) + rest);
    }
  }

  /** What the writer writes is canonical, whatever follows. */
  lemma {:induction false} WrittenIsCanonical(t: Tag, v: Value, rest: seq<byte>)
    requires Supported(t, v) && WriteValue(t, v).Ok?
    ensures Canonical(t, WriteValue(t, v).bytes + rest)
    decreases v, 1
  {
    hide Canonical, WriteValue, WriteFields, WriteElements, SortFields;
    match v
    case Int(n) => IntWritten(t, n, rest);
    case Bytes(s) => BytesWritten(t, s, rest);
    case List(et, items) =>
      ElementsRoundTrip(v, []);
      ElementsWritten(v, rest);
      ListWritten(t, et, items, WriteElements(et, items).bytes, rest);
    case Struct(fields) =>
      FieldsRoundTrip(0, SortFields(fields), v, rest);
      SortedById(fields);
      FieldsWritten(true, 0, SortFields(fields), v, rest);
      StructWritten(fields, WriteFields(0, SortFields(fields), v).bytes, rest);
    case Bool(_) =>
  }

  lemma IntWritten(t: Tag, n: int, rest: seq<byte>)
    requires Supported(t, Int(n)) && WriteValue(t, Int(n)).Ok?
    ensures Canonical(t, WriteValue(t, Int(n)).bytes + rest)
  {
    hide CanonicalInt, WriteZigzag;
    if IsInt(t) { IntIsCanonical(n, rest); }
  }

  lemma BytesWritten(t: Tag, s: seq<byte>, rest: seq<byte>)
    requires Supported(t, Bytes(s)) && WriteValue(t, Bytes(s)).Ok?
    ensures Canonical(t, WriteValue(t, Bytes(s)).bytes + rest)
  {
    hide ReadVarint, WriteVarint, MinimalVarint;
    if t == T_BINARY {
      VarintRoundTrip(|s|, s + rest);
      VarintIsMinimal(|s|, s + rest);
      Slices.Assoc(WriteVarint(|s|), s, rest);
    }
  }

  predicate CanonicalElements(et: Tag, count: nat, s: seq<byte>) {
    if IsBool(et) then CanonicalBools(count, s) else CanonicalItems(et, count, s)
  }

  lemma ListWritten(t: Tag, et: Tag, items: seq<Value>, body: seq<byte>, rest: seq<byte>)
    requires IsList(t) && WriteElements(et, items) == Ok(body) && CanonicalElements(et, |items|, body + rest)
    ensures WriteValue(t, List(et, items)).Ok? && Canonical(t, WriteValue(t, List(et, items)).bytes + rest)
  {
    hide WriteListHead, CanonicalListHead, ReadListHead, CanonicalBools, CanonicalItems;
    var head := WriteListHead(et, |items|);
    WriteListUnfold(t, et, items, body);
    ListHeadRoundTrip(et, |items|, body + rest);
    ListHeadIsCanonical(et, |items|, body + rest);
    Slices.Assoc(head, body, rest);
    DropPrefix(head, body + rest);
  }

  lemma {:induction false} ElementsWritten(v: Value, rest: seq<byte>)
    requires v.List? && (forall x :: x in v.items ==> SupportedIn(v.et, x)) && WriteElements(v.et, v.items).Ok?
    ensures CanonicalElements(v.et, |v.items|, WriteElements(v.et, v.items).bytes + rest)
    decreases v, 0
  {
    hide CanonicalItems, CanonicalBools, WriteItems, WriteBools;
    if IsBool(v.et) { BoolsWritten(v.items, rest); } else { ItemsWritten(v.et, v.items, rest); }
  }

  lemma {:induction false} BoolsWritten(items: seq<Value>, rest: seq<byte>)
    requires WriteBools(items).Ok?
    ensures CanonicalBools(|items|, WriteBools(items).bytes + rest)
    ensures |WriteBools(items).bytes| == |items|
  {
    if items != [] {
      BoolsWritten(items[1..], rest);
      var w := WriteBools(items).bytes + rest;
      var more := WriteBools(items[1..]).bytes + rest;
      assert forall i :: 0 < i < |w| ==> w[i] == more[i - 1];
    }
  }

  lemma {:induction false} ItemsWritten(et: Tag, items: seq<Value>, rest: seq<byte>)
    requires !IsBool(et) && (forall x :: x in items ==> Supported(et, x)) && WriteItems(et, items).Ok?
    ensures CanonicalItems(et, |items|, WriteItems(et, items).bytes + rest)
    decreases items, 0
  {
    hide Canonical, ReadValue, WriteItems, WriteValue, Supported, Canon;
    if items != [] {
      ItemsRoundTrip(et, items[1..], rest);
      ItemsWritten(et, items[1..], rest);
      var more := WriteItems(et, items[1..]).bytes;
      RoundTrip(et, items[0], more + rest);
      WrittenIsCanonical(et, items[0], more + rest);
      var first := WriteValue(et, items[0]).bytes;
      WriteItemsUnfold(et, items, first, more);
      DropPrefix(first, more + rest);
      Slices.Assoc(first, more, rest);
    }
  }

  lemma StructWritten(fields: seq<Field>, body: seq<byte>, rest: seq<byte>)
    requires WriteFields(0, SortFields(fields), Struct(fields)) == Ok(body)
    requires CanonicalFields(true, 0, body + ([0] + rest))
    ensures WriteValue(T_STRUCT, Struct(fields)).Ok? && Canonical(T_STRUCT, WriteValue(T_STRUCT, Struct(fields)).bytes + rest)
  {
    hide WriteFields, SortFields, CanonicalFields;
    Slices.Assoc(body, [0], rest);
  }

  lemma SortedById(fields: seq<Field>)
    ensures var r := SortFields(fields); forall i, j :: 0 <= i < j < |r| ==> r[i].fid <= r[j].fid
  {
    ByIdIsTotalPreorder();
    StableSort.SortIsStable(fields, ById);
    var r := SortFields(fields);
    forall i, j | 0 <= i < j < |r| ensures r[i].fid <= r[j].fid {
      assert ById(r[i], r[j]);
    }
  }

  lemma {:induction false} FieldsWritten(first: bool, last: int, fields: seq<Field>, owner: Value, rest: seq<byte>)
    requires owner.Struct? && forall f :: f in fields ==> f in owner.fields
    requires forall f :: f in fields ==> Int64(f.fid) && SupportedIn(f.ft, f.val) && (first || last <= f.fid)
    requires forall i, j :: 0 <= i < j < |fields| ==> fields[i].fid <= fields[j].fid
    requires WriteFields(last, fields, owner).Ok?
    ensures CanonicalFields(first, last, WriteFields(last, fields, owner).bytes + ([0] + rest))
    decreases owner, 0, |fields|
  {
    hide ReadFields, ReadValue, WriteFieldHead, WriteFields, WriteValue, Supported, Canon, CanonFields, Canonical, CanonicalFields;
    var tail := [0] + rest;
    if fields == [] {
      NoFieldsWritten(first, last, owner, rest);
    } else {
      var f := fields[0];
      assert f in owner.fields;
      FieldsRoundTrip(f.fid, fields[1..], owner, rest);
      var more := WriteFields(f.fid, fields[1..], owner).bytes;
      FieldsWritten(false, f.fid, fields[1..], owner, rest);
      if !IsBool(f.ft) {
        RoundTrip(f.ft, f.val, more + tail);
        WrittenIsCanonical(f.ft, f.val, more + tail);
      }
      SupportedTag(f);
      OneFieldWritten(first, last, f, FieldBody(f).bytes, more + tail);
      WriteFieldsUnfold(last, fields, owner, FieldBody(f).bytes, more);
      Slices.Assoc(WriteField(last, f, FieldBody(f).bytes), more, tail);
    }
  }

  lemma NoFieldsWritten(first: bool, last: int, owner: Value, rest: seq<byte>)
    requires owner.Struct?
    ensures WriteFields(last, [], owner) == Ok([]) && CanonicalFields(first, last, [] + ([0] + rest))
  {
  }

  lemma OneFieldWritten(first: bool, last: int, f: Field, body: seq<byte>, tail: seq<byte>)
    requires Int64(f.fid) && SupportedIn(f.ft, f.val) && FieldBody(f) == Ok(body) && (first || last <= f.fid)
    requires !IsBool(f.ft) ==> ReadValue(f.ft, body + tail) == Got(Canon(f.val), |body|) && Canonical(f.ft, body + tail)
    requires CanonicalFields(false, f.fid, tail)
    ensures CanonicalFields(first, last, WriteField(last, f, body) + tail)
  {
    hide ReadValue, ReadFieldHead, WriteFieldHead, WriteValue, Supported, Canon, Canonical, CanonicalFieldHead, CanonicalFields;
    var head := WriteFieldHead(last, f.fid, WireTag(f));
    SupportedTag(f);
    FieldHeadRoundTrip(last, f.fid, WireTag(f), body + tail);
    FieldHeadIsCanonical(first, last, f.fid, WireTag(f), body + tail);
    if IsBool(f.ft) {
      assert body + tail == tail;
      BoolFieldReadsBack(f, tail);
    }
    DropPrefix(head, body + tail);
    DropTwo(head, body, tail);
    CanonicalFieldsUnfold(first, last, head + (body + tail), FieldHead(f.fid, WireTag(f)), |head|, |body|);
    Slices.Assoc(head, body, tail);
  }

  lemma CanonicalFieldsUnfold(first: bool, last: int, s: seq<byte>, head: FieldHead, u: nat, n: nat)
    requires CanonicalFieldHead(first, last, s) && s != [] && s[0] != 0 && ReadFieldHead(last, s) == Got(head, u)
    requires IsBool(head.ft) || Canonical(head.ft, Drop(s, u))
    requires ReadValue(head.ft, Drop(s, u)).Got? && ReadValue(head.ft, Drop(s, u)).used == n
    requires CanonicalFields(false, head.fid, Drop(s, u + n))
    ensures CanonicalFields(first, last, s)
  {
    hide ReadValue, ReadFieldHead, CanonicalFieldHead, Canonical;
  }

  /** A byte string is canonical for `t` exactly when it is what the writer writes for some supported value. */
  lemma CanonicalIsTheWritersImage(t: Tag, s: seq<byte>)
    ensures Canonical(t, s) && ReadValue(t, s).Got? && ReadValue(t, s).used == |s|
       <==> exists v :: Supported(t, v) && WriteValue(t, v) == Ok(s)
  {
    hide Canonical, ReadValue, WriteValue, Supported;
    if Canonical(t, s) && ReadValue(t, s).Got? && ReadValue(t, s).used == |s| {
      Reverse(t, s);
      assert s[..|s|] == s;
      assert Supported(t, ReadValue(t, s).v) && WriteValue(t, ReadValue(t, s).v) == Ok(s);
    }
    if v :| Supported(t, v) && WriteValue(t, v) == Ok(s) {
      WrittenIsCanonical(t, v, []);
      RoundTrip(t, v, []);
      assert s + [] == s;
    }
  }

  /** A value and its canonical form are written as the same bytes. */
  lemma CanonWritesTheSame(t: Tag, v: Value)
    requires Supported(t, v)
    ensures Supported(t, Canon(v)) && WriteValue(t, Canon(v)) == WriteValue(t, v)
  {
    hide Canonical, ReadValue, WriteValue, Supported, Canon;
    RoundTrip(t, v, []);
    WrittenIsCanonical(t, v, []);
    var s := WriteValue(t, v).bytes;
    assert s + [] == s;
    Reverse(t, s);
    assert s[..|s|] == s;
  }
}
