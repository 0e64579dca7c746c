/** What the writer writes, the reader gives back. */
module ThriftRoundTrip {
  import opened Bits
  import opened Thrift
  import Slices
  import StableSort

  // ---- Which values, and what they come back as ----

  /** Values the protocol can carry: bytes in range, integers and field ids of 64 bits, doubles of eight bytes. */
  predicate Supported(t: Tag, v: Value)
    decreases v, 0
  {
    match v
    case Bool(_) => false
    case Int(n) => (t == T_BYTE && 0 <= n < 256) || (IsInt(t) && Int64(n))
    case Bytes(s) => (t == T_DOUBLE && |s| == 8) || t == T_BINARY
    case List(et, items) => IsList(t) && forall x :: x in items ==> SupportedIn(et, x)
    case Struct(fields) => t == T_STRUCT && forall f :: f in fields ==> Int64(f.fid) && SupportedIn(f.ft, f.val)
  }

  /** Inside a list or a struct, booleans too. */
  predicate SupportedIn(t: Tag, v: Value)
    decreases v, 1
  {
    if IsBool(t) then v.Bool? else Supported(t, v)
  }

  /** Fields stably sorted by id, at every depth, and each boolean field's tag saying its value. */
  function Canon(v: Value): Value {
    match v
    case List(et, items) => List(et, seq(|items|, i requires 0 <= i < |items| => Canon(items[i])))
    case Struct(fields) => Struct(SortFields(CanonFields(fields)))
    case _ => v
  }

  function CanonField(f: Field): Field {
    Field(f.fid, WireTag(f), Canon(f.val))
  }

  function CanonFields(fields: seq<Field>): seq<Field> {
    seq(|fields|, i requires 0 <= i < |fields| => CanonField(fields[i]))
  }

  function CanonItems(items: seq<Value>): seq<Value> {
    seq(|items|, i requires 0 <= i < |items| => Canon(items[i]))
  }

  // ---- Sorting fields ----

  lemma ByIdIsTotalPreorder()
    ensures StableSort.TotalPreorder(ById)
  {
  }

  lemma {:induction false} CanonClass(fields: seq<Field>, c: Field)
    ensures StableSort.Class(CanonFields(fields), ById, c) == CanonFields(StableSort.Class(fields, ById, c))
  {
    if fields != [] {
      CanonClass(fields[1..], c);
      assert CanonFields(fields)[1..] == CanonFields(fields[1..]);
      assert CanonFields([fields[0]] + StableSort.Class(fields[1..], ById, c))
          == [CanonField(fields[0])] + CanonFields(StableSort.Class(fields[1..], ById, c));
    }
  }

  /** Sorting looks only at ids, so it does not matter whether values are made canonical first. */
  lemma SortCommutesWithCanon(fields: seq<Field>)
    ensures SortFields(CanonFields(fields)) == CanonFields(SortFields(fields))
  {
    ByIdIsTotalPreorder();
    StableSort.SortIsStable(fields, ById);
    StableSort.SortIsStable(CanonFields(fields), ById);
    forall c ensures StableSort.Class(CanonFields(SortFields(fields)), ById, c) == StableSort.Class(CanonFields(fields), ById, c) {
      CanonClass(fields, c);
      CanonClass(SortFields(fields), c);
    }
    StableSort.StableSortUnique(CanonFields(fields), SortFields(CanonFields(fields)), CanonFields(SortFields(fields)), ById);
  }

  // ---- Self-delimiting pieces ----

  lemma {:induction false} VarintRoundTrip(v: nat, rest: seq<byte>)
    ensures ReadVarint(WriteVarint(v) + rest) == Got(v, |WriteVarint(v)|)
  {
    var w := WriteVarint(v) + rest;
    if v >= 128 {
      VarintRoundTrip(v / 128, rest);
      assert w[1..] == WriteVarint(v / 128) + rest;
    }
  }

  lemma ZigzagRoundTrip(v: int, rest: seq<byte>)
    requires Int64(v)
    ensures ReadZigzag(WriteZigzag(v) + rest) == Got(v, |WriteZigzag(v)|)
  {
    VarintRoundTrip(Zigzag(v), rest);
    ZigzagRoundTripIffInt64(v);
  }

  lemma ListHeadRoundTrip(et: Tag, count: nat, rest: seq<byte>)
    ensures ReadListHead(WriteListHead(et, count) + rest) == Got(ListHead(count, et), |WriteListHead(et, count)|)
  {
    hide ReadVarint, WriteVarint;
    if count >= 15 {
      VarintRoundTrip(count, rest);
      Slices.Assoc([240 + et], WriteVarint(count), rest);
      Slices.Uncons(240 + et, WriteVarint(count) + rest);
      assert (240 + et) / 16 == 15 && (240 + et) % 16 == et;
    } else {
      assert (count * 16 + et) / 16 == count && (count * 16 + et) % 16 == et;
    }
  }

  lemma FieldHeadRoundTrip(last: int, fid: int, wire: Tag, rest: seq<byte>)
    requires Int64(fid) && wire != 0
    ensures var w := WriteFieldHead(last, fid, wire);
            w + rest != [] && (w + rest)[0] != 0 && ReadFieldHead(last, w + rest) == Got(FieldHead(fid, wire), |w|)
  {
    if 0 < fid - last <= 15 {
      ShortFieldHead(last, fid, wire, rest);
    } else {
      LongFieldHead(last, fid, wire, rest);
    }
  }

  lemma ShortFieldHead(last: int, fid: int, wire: Tag, rest: seq<byte>)
    requires 0 < fid - last <= 15
    ensures ReadFieldHead(last, [(fid - last) * 16 + wire] + rest) == Got(FieldHead(fid, wire), 1)
  {
    var h := (fid - last) * 16 + wire;
    assert h / 16 == fid - last && h % 16 == wire;
  }

  lemma LongFieldHead(last: int, fid: int, wire: Tag, rest: seq<byte>)
    requires Int64(fid) && wire != 0
    ensures var w := [wire as byte] + WriteZigzag(fid);
            ReadFieldHead(last, w + rest) == Got(FieldHead(fid, wire), |w|)
  {
    ZigzagRoundTrip(fid, rest);
    LongFieldHeadStep(last, fid, wire, WriteZigzag(fid), rest);
  }

  lemma LongFieldHeadStep(last: int, fid: int, wire: Tag, id: seq<byte>, rest: seq<byte>)
    requires wire != 0 && ReadZigzag(id + rest) == Got(fid, |id|)
    ensures ReadFieldHead(last, ([wire as byte] + id) + rest) == Got(FieldHead(fid, wire), |id| + 1)
  {
    var s := ([wire as byte] + id) + rest;
    assert s[1..] == id + rest;
    assert s[0] / 16 == 0 && s[0] % 16 == wire;
  }

  lemma DropPrefix(a: seq<byte>, b: seq<byte>)
    ensures Drop(a + b, |a|) == b
  {
  }

  lemma DropTwo(a: seq<byte>, b: seq<byte>, c: seq<byte>)
    ensures Drop(a + (b + c), |a| + |b|) == c
  {
    Slices.Assoc(a, b, c);
    DropPrefix(a + b, c);
  }

  // ---- One step of each reader ----

  lemma ReadItemsUnfold(et: Tag, count: nat, s: seq<byte>, v: Value, n: nat, rest: seq<Value>, k: nat)
    requires count > 0 && ReadValue(et, s) == Got(v, n)
    requires ReadItems(et, count - 1, Drop(s, n)) == Got(rest, k)
    ensures ReadItems(et, count, s) == Got([v] + rest, n + k)
  {
    hide ReadValue;
  }

  lemma ReadFieldsUnfold(last: int, s: seq<byte>, head: FieldHead, u: nat, v: Value, n: nat, rest: seq<Field>, k: nat)
    requires s != [] && s[0] != 0 && ReadFieldHead(last, s) == Got(head, u)
    requires ReadValue(head.ft, Drop(s, u)) == Got(v, n)
    requires ReadFields(head.fid, Drop(s, u + n)) == Got(rest, k)
    ensures ReadFields(last, s) == Got([Field(head.fid, head.ft, v)] + rest, u + n + k)
  {
    hide ReadValue, ReadFieldHead;
  }

  function WriteElements(et: Tag, items: seq<Value>): Written {
    if IsBool(et) then WriteBools(items) else WriteItems(et, items)
  }

  function ReadElements(et: Tag, count: nat, s: seq<byte>): Read<seq<Value>> {
    if IsBool(et) then ReadBools(count, s) else ReadItems(et, count, s)
  }

  lemma ReadListUnfold(t: Tag, s: seq<byte>, head: ListHead, u: nat, items: seq<Value>, k: nat)
    requires IsList(t) && ReadListHead(s) == Got(head, u)
    requires ReadElements(head.et, head.count, Drop(s, u)) == Got(items, k)
    ensures ReadValue(t, s) == Got(List(head.et, items), u + k)
  {
    hide ReadListHead, ReadItems, ReadBools;
  }

  // ---- Round trip ----

  /** Reading what was written, with anything after it, uses exactly what was written and gives the canonical value. */
  lemma {:induction false} RoundTrip(t: Tag, v: Value, rest: seq<byte>)
    requires Supported(t, v)
    ensures WriteValue(t, v).Ok?
    ensures ReadValue(t, WriteValue(t, v).bytes + rest) == Got(Canon(v), |WriteValue(t, v).bytes|)
    decreases v, 1
  {
    hide ReadValue, WriteValue, ReadFields, WriteFields, Canon, CanonItems, CanonFields, ReadElements, WriteElements;
    match v
    case Int(n) => IntRoundTrip(t, n, rest);
    case Bytes(s) => BytesRoundTrip(t, s, rest);
    case List(et, items) =>
      ElementsRoundTrip(v, rest);
      ListRoundTrip(t, et, items, WriteElements(et, items).bytes, rest);
    case Struct(fields) =>
      FieldsRoundTrip(0, SortFields(fields), v, rest);
      StructRoundTrip(fields, WriteFields(0, SortFields(fields), v).bytes, rest);
    case Bool(_) =>
  }

  lemma IntRoundTrip(t: Tag, n: int, rest: seq<byte>)
    requires Supported(t, Int(n))
    ensures WriteValue(t, Int(n)).Ok?
    ensures ReadValue(t, WriteValue(t, Int(n)).bytes + rest) == Got(Canon(Int(n)), |WriteValue(t, Int(n)).bytes|)
  {
    if IsInt(t) { ZigzagRoundTrip(n, rest); }
  }

  lemma BytesRoundTrip(t: Tag, s: seq<byte>, rest: seq<byte>)
    requires (t == T_DOUBLE && |s| == 8) || t == T_BINARY
    ensures WriteValue(t, Bytes(s)).Ok?
    ensures ReadValue(t, WriteValue(t, Bytes(s)).bytes + rest) == Got(Canon(Bytes(s)), |WriteValue(t, Bytes(s)).bytes|)
  {
    TakePrefix(s, rest);
    if t == T_BINARY {
      hide WriteVarint, ReadVarint;
      VarintRoundTrip(|s|, s + rest);
      Slices.Assoc(WriteVarint(|s|), s, rest);
      DropPrefix(WriteVarint(|s|), s + rest);
    }
  }

  lemma TakePrefix(a: seq<byte>, b: seq<byte>)
    ensures Take(a + b, |a|) == a
  {
  }

  lemma ListRoundTrip(t: Tag, et: Tag, items: seq<Value>, body: seq<byte>, rest: seq<byte>)
    requires IsList(t) && WriteElements(et, items) == Ok(body)
    requires ReadElements(et, |items|, body + rest) == Got(CanonItems(items), |body|)
    ensures WriteValue(t, List(et, items)).Ok?
    ensures ReadValue(t, WriteValue(t, List(et, items)).bytes + rest) == Got(Canon(List(et, items)), |WriteValue(t, List(et, items)).bytes|)
  {
    hide ReadValue, ReadListHead, WriteListHead, ReadElements;
    var head := WriteListHead(et, |items|);
    WriteListUnfold(t, et, items, body);
    ListHeadRoundTrip(et, |items|, body + rest);
    Slices.Assoc(head, body, rest);
    DropPrefix(head, body + rest);
    ReadListUnfold(t, head + (body + rest), ListHead(|items|, et), |head|, CanonItems(items), |body|);
  }

  lemma WriteListUnfold(t: Tag, et: Tag, items: seq<Value>, body: seq<byte>)
    requires IsList(t) && WriteElements(et, items) == Ok(body)
    ensures WriteValue(t, List(et, items)) == Ok(WriteListHead(et, |items|) + body)
  {
    hide WriteListHead, WriteItems, WriteBools;
  }

  lemma StructRoundTrip(fields: seq<Field>, body: seq<byte>, rest: seq<byte>)
    requires WriteFields(0, SortFields(fields), Struct(fields)) == Ok(body)
    requires ReadFields(0, body + ([0] + rest)) == Got(CanonFields(SortFields(fields)), |body| + 1)
    ensures WriteValue(T_STRUCT, Struct(fields)).Ok?
    ensures ReadValue(T_STRUCT, WriteValue(T_STRUCT, Struct(fields)).bytes + rest)
         == Got(Canon(Struct(fields)), |WriteValue(T_STRUCT, Struct(fields)).bytes|)
  {
    hide ReadFields, WriteFields, SortFields, CanonFields;
    SortCommutesWithCanon(fields);
    Slices.Assoc(body, [0], rest);
  }

  lemma {:induction false} ElementsRoundTrip(v: Value, rest: seq<byte>)
    requires v.List? && forall x :: x in v.items ==> SupportedIn(v.et, x)
    ensures WriteElements(v.et, v.items).Ok?
    ensures ReadElements(v.et, |v.items|, WriteElements(v.et, v.items).bytes + rest)
         == Got(CanonItems(v.items), |WriteElements(v.et, v.items).bytes|)
    decreases v, 0
  {
    hide ReadItems, ReadBools, WriteItems, WriteBools, CanonItems;
    if IsBool(v.et) { BoolsRoundTrip(v.items, rest); } else { ItemsRoundTrip(v.et, v.items, rest); }
  }

  lemma {:induction false} BoolsRoundTrip(items: seq<Value>, rest: seq<byte>)
    requires forall x :: x in items ==> x.Bool?
    ensures WriteBools(items).Ok?
    ensures ReadBools(|items|, WriteBools(items).bytes + rest) == Got(CanonItems(items), |WriteBools(items).bytes|)
  {
    if items == [] {
      assert CanonItems(items) == [];
    } else {
      BoolsRoundTrip(items[1..], rest);
      var more := WriteBools(items[1..]).bytes;
      var first: seq<byte> := [if items[0].b then 1 else 2];
      Slices.Assoc(first, more, rest);
      DropPrefix(first, more + rest);
      CanonItemsUnfold(items);
    }
  }

  lemma CanonItemsUnfold(items: seq<Value>)
    requires items != []
    ensures CanonItems(items) == [Canon(items[0])] + CanonItems(items[1..])
  {
  }

  lemma {:induction false} ItemsRoundTrip(et: Tag, items: seq<Value>, rest: seq<byte>)
    requires !IsBool(et) && forall x :: x in items ==> Supported(et, x)
    ensures WriteItems(et, items).Ok?
    ensures ReadItems(et, |items|, WriteItems(et, items).bytes + rest) == Got(CanonItems(items), |WriteItems(et, items).bytes|)
    decreases items, 0
  {
    hide ReadItems, ReadValue, WriteItems, WriteValue, Supported, Canon;
    if items == [] {
      NoItemsRoundTrip(et, rest);
    } else {
      ItemsRoundTrip(et, items[1..], rest);
      var more := WriteItems(et, items[1..]).bytes;
      RoundTrip(et, items[0], more + rest);
      var first := WriteValue(et, items[0]).bytes;
      WriteItemsUnfold(et, items, first, more);
      DropPrefix(first, more + rest);
      ReadItemsUnfold(et, |items|, first + (more + rest), Canon(items[0]), |first|, CanonItems(items[1..]), |more|);
      CanonItemsUnfold(items);
      Slices.Assoc(first, more, rest);
    }
  }

  lemma NoItemsRoundTrip(et: Tag, rest: seq<byte>)
    ensures WriteItems(et, []) == Ok([]) && ReadItems(et, 0, [] + rest) == Got(CanonItems([]), 0)
  {
    assert CanonItems([]) == [];
  }

  lemma WriteItemsUnfold(et: Tag, items: seq<Value>, first: seq<byte>, more: seq<byte>)
    requires items != [] && WriteValue(et, items[0]) == Ok(first) && WriteItems(et, items[1..]) == Ok(more)
    ensures WriteItems(et, items) == Ok(first + more)
  {
    hide WriteValue;
  }

  function FieldBody(f: Field): Written {
    if IsBool(f.ft) then (if f.val.Bool? then Ok([]) else Refused(WrongValue)) else WriteValue(f.ft, f.val)
  }

  lemma {:induction false} FieldsRoundTrip(last: int, fields: seq<Field>, owner: Value, rest: seq<byte>)
    requires owner.Struct? && forall f :: f in fields ==> f in owner.fields
    requires forall f :: f in fields ==> Int64(f.fid) && SupportedIn(f.ft, f.val)
    ensures WriteFields(last, fields, owner).Ok?
    ensures var w := WriteFields(last, fields, owner).bytes;
            ReadFields(last, w + ([0] + rest)) == Got(CanonFields(fields), |w| + 1)
    decreases owner, 0, |fields|
  {
    hide ReadFields, ReadValue, WriteFieldHead, WriteFields, WriteValue, Supported, Canon, CanonFields;
    var tail := [0] + rest;
    if fields == [] {
      NoFieldsRoundTrip(last, owner, rest);
    } else {
      var f := fields[0];
      assert f in owner.fields;
      FieldsRoundTrip(f.fid, fields[1..], owner, rest);
      var more := WriteFields(f.fid, fields[1..], owner).bytes;
      if !IsBool(f.ft) { RoundTrip(f.ft, f.val, more + tail); }
      OneFieldRoundTrip(last, f, more + tail, CanonFields(fields[1..]), |more| + 1);
      WriteFieldsUnfold(last, fields, owner, FieldBody(f).bytes, more);
      Slices.Assoc(WriteField(last, f, FieldBody(f).bytes), more, tail);
      CanonFieldsUnfold(fields);
    }
  }

  lemma NoFieldsRoundTrip(last: int, owner: Value, rest: seq<byte>)
    requires owner.Struct?
    ensures WriteFields(last, [], owner) == Ok([])
    ensures ReadFields(last, [] + ([0] + rest)) == Got(CanonFields([]), 1)
  {
    assert [] + ([0] + rest) == [0] + rest;
    assert CanonFields([]) == [];
  }

  function WriteField(last: int, f: Field, body: seq<byte>): seq<byte> {
    WriteFieldHead(last, f.fid, WireTag(f)) + body
  }

  lemma WriteFieldsUnfold(last: int, fields: seq<Field>, owner: Value, body: seq<byte>, more: seq<byte>)
    requires owner.Struct? && fields != [] && forall f :: f in fields ==> f in owner.fields
    requires FieldBody(fields[0]) == Ok(body) && WriteFields(fields[0].fid, fields[1..], owner) == Ok(more)
    ensures WriteFields(last, fields, owner) == Ok(WriteField(last, fields[0], body) + more)
  {
    hide WriteValue, WriteFieldHead;
  }

  lemma CanonFieldsUnfold(fields: seq<Field>)
    requires fields != []
    ensures CanonFields(fields) == [CanonField(fields[0])] + CanonFields(fields[1..])
  {
  }

  lemma OneFieldRoundTrip(last: int, f: Field, tail: seq<byte>, rest: seq<Field>, used: nat)
    requires Int64(f.fid) && SupportedIn(f.ft, f.val) && FieldBody(f).Ok?
    requires !IsBool(f.ft) ==> ReadValue(f.ft, FieldBody(f).bytes + tail) == Got(Canon(f.val), |FieldBody(f).bytes|)
    requires ReadFields(f.fid, tail) == Got(rest, used)
    ensures var w := WriteField(last, f, FieldBody(f).bytes);
            ReadFields(last, w + tail) == Got([CanonField(f)] + rest, |w| + used)
  {
    hide ReadFields, ReadValue, ReadFieldHead, WriteFieldHead, WriteValue, Supported, Canon;
    var body := FieldBody(f).bytes;
    var head := WriteFieldHead(last, f.fid, WireTag(f));
    SupportedTag(f);
    FieldHeadRoundTrip(last, f.fid, WireTag(f), body + tail);
    if IsBool(f.ft) {
      assert body + tail == tail;
      BoolFieldReadsBack(f, tail);
    }
    DropPrefix(head, body + tail);
    DropTwo(head, body, tail);
    ReadFieldsUnfold(last, head + (body + tail), FieldHead(f.fid, WireTag(f)), |head|, Canon(f.val), |body|, rest, used);
    Slices.Assoc(head, body, tail);
  }

  lemma BoolFieldReadsBack(f: Field, s: seq<byte>)
    requires IsBool(f.ft) && f.val.Bool?
    ensures ReadValue(WireTag(f), s) == Got(Canon(f.val), 0)
  {
  }

  lemma SupportedTag(f: Field)
    requires SupportedIn(f.ft, f.val)
    ensures WireTag(f) != 0 && (IsBool(f.ft) ==> f.val.Bool?)
  {
  }
}
