/** The converse of the round trip: which byte strings the writer gives back unchanged once they have been read. */
module ThriftCanonical {
  import opened Bits
  import opened Thrift
  import opened ThriftRoundTrip
  import Slices
  import StableSort

  /** No padding: a varint of several bytes does not end in a zero byte. */
  predicate MinimalVarint(s: seq<byte>) {
    match ReadVarint(s)
    case Got(n, used) => used == 1 || s[used - 1] != 0
    case Fail(_) => false
  }

  predicate CanonicalInt(s: seq<byte>) {
    MinimalVarint(s) && Int64(ReadZigzag(s).v)
  }

  /** The long list header is for fifteen elements or more. */
  predicate CanonicalListHead(s: seq<byte>) {
    ReadListHead(s).Got? && (s[0] / 16 == 15 ==> ReadListHead(s).v.count >= 15 && MinimalVarint(s[1..]))
  }

  /** Ids do not decrease, and the short header is used exactly when it can be. */
  predicate CanonicalFieldHead(first: bool, last: int, s: seq<byte>) {
    && s != [] && s[0] != 0 && ReadFieldHead(last, s).Got?
    && var fid := ReadFieldHead(last, s).v.fid;
    && Int64(fid) && (first || last <= fid)
    && (s[0] / 16 == 0 ==> CanonicalInt(s[1..]) && !(0 < fid - last <= 15))
  }

  /** The value of type `t` at the start of `s` is complete and spelled as the writer spells it. */
  predicate Canonical(t: Tag, s: seq<byte>)
    decreases |s|, 1
  {
    if t == T_BYTE then s != []
    else if IsInt(t) then CanonicalInt(s)
    else if t == T_DOUBLE then 8 <= |s|
    else if t == T_BINARY then MinimalVarint(s) && ReadVarint(s).used + ReadVarint(s).v <= |s|
    else if IsList(t) then
      && CanonicalListHead(s)
      && var head := ReadListHead(s);
      if IsBool(head.v.et) then CanonicalBools(head.v.count, Drop(s, head.used))
      else CanonicalItems(head.v.et, head.v.count, Drop(s, head.used))
    else t == T_STRUCT && CanonicalFields(true, 0, s)
  }

  predicate CanonicalBools(count: nat, s: seq<byte>) {
    count <= |s| && forall i :: 0 <= i < count ==> s[i] == 1 || s[i] == 2
  }

  predicate CanonicalItems(et: Tag, count: nat, s: seq<byte>)
    decreases |s|, 2, count
  {
    count == 0 || (
      && Canonical(et, s)
      && ReadValue(et, s).Got?
      && CanonicalItems(et, count - 1, Drop(s, ReadValue(et, s).used)))
  }

  predicate CanonicalFields(first: bool, last: int, s: seq<byte>)
    decreases |s|, 0
  {
    s != [] && (s[0] == 0 || (
      && CanonicalFieldHead(first, last, s)
      && var head := ReadFieldHead(last, s);
      && var body := Drop(s, head.used);
      && (IsBool(head.v.ft) || Canonical(head.v.ft, body))
      && ReadValue(head.v.ft, body).Got?
      && CanonicalFields(false, head.v.fid, Drop(s, head.used + ReadValue(head.v.ft, body).used))))
  }

  // ---- Canonical bytes are written back unchanged ----

  lemma {:induction false} MinimalVarintReverse(s: seq<byte>)
    requires MinimalVarint(s)
    ensures var r := ReadVarint(s); WriteVarint(r.v) == s[..r.used]
    ensures s[ReadVarint(s).used - 1] != 0 ==> ReadVarint(s).v > 0
  {
    if s[0] >= 128 {
      var r := ReadVarint(s[1..]);
      MinimalVarintReverse(s[1..]);
      assert s[1..][..r.used] == s[1..r.used + 1];
      assert s[..r.used + 1] == [s[0]] + s[1..r.used + 1];
    }
  }

  lemma CanonicalIntReverse(s: seq<byte>)
    requires CanonicalInt(s)
    ensures var r := ReadZigzag(s); WriteZigzag(r.v) == s[..r.used]
  {
    var n := ReadVarint(s).v;
    MinimalVarintReverse(s);
    ZigzagRoundTripIffInt64(Unzigzag(n));
    UnzigzagInjective(n, Zigzag(Unzigzag(n)));
  }

  lemma ListHeadReverse(s: seq<byte>)
    requires CanonicalListHead(s)
    ensures var r := ReadListHead(s); WriteListHead(r.v.et, r.v.count) == s[..r.used]
  {
    if s[0] / 16 == 15 {
      MinimalVarintReverse(s[1..]);
      var used := ReadVarint(s[1..]).used;
      assert s[1..][..used] == s[1..used + 1];
    }
  }

  lemma FieldHeadReverse(first: bool, last: int, s: seq<byte>)
    requires CanonicalFieldHead(first, last, s)
    ensures var r := ReadFieldHead(last, s); WriteFieldHead(last, r.v.fid, r.v.ft) == s[..r.used]
  {
    hide WriteZigzag, ReadZigzag;
    if s[0] / 16 == 0 {
      assert s[0] % 16 == s[0];
      CanonicalIntReverse(s[1..]);
      var used := ReadZigzag(s[1..]).used;
      Slices.TakeTake(s, 1, used);
      assert s[..1] == [s[0]];
    } else {
      assert s[0] / 16 * 16 + s[0] % 16 == s[0];
    }
  }

  /** What reading and writing back `s` gives: all of the value inside `s`, and the same bytes again. */
  predicate WrittenBack(t: Tag, s: seq<byte>, r: Read<Value>) {
    r.Got? && r.used <= |s| && Supported(t, r.v) && WriteValue(t, r.v) == Ok(s[..r.used])
  }

  predicate ElementsWrittenBack(et: Tag, count: nat, s: seq<byte>, r: Read<seq<Value>>) {
    && r.Got? && r.used <= |s| && |r.v| == count
    && (forall x :: x in r.v ==> SupportedIn(et, x))
    && WriteElements(et, r.v) == Ok(s[..r.used])
  }

  /** Read at `s`: sorted fields, none below `last`, written back as the bytes before the stop. */
  predicate FieldsWrittenBack(first: bool, last: int, s: seq<byte>, r: Read<seq<Field>>) {
    && r.Got? && 1 <= r.used <= |s| && s[r.used - 1] == 0
    && (forall f :: f in r.v ==> Int64(f.fid) && SupportedIn(f.ft, f.val) && (first || last <= f.fid))
    && (forall i, j :: 0 <= i < j < |r.v| ==> r.v[i].fid <= r.v[j].fid)
    && WriteFields(last, r.v, Struct(r.v)) == Ok(s[..r.used - 1])
  }

  /** A canonical value reads as a supported one, and writing that gives the same bytes. */
  lemma {:induction false} Reverse(t: Tag, s: seq<byte>)
    requires Canonical(t, s)
    ensures WrittenBack(t, s, ReadValue(t, s))
    decreases |s|, 1
  {
    hide ReadValue, WriteValue, WrittenBack, ElementsWrittenBack, FieldsWrittenBack, ReadElements, CanonicalListHead;
    hide CanonicalFields, CanonicalItems, CanonicalBools, CanonicalInt;
    if IsInt(t) { IntReverse(t, s); }
    else if t == T_BINARY { BinaryReverse(s); }
    else if IsList(t) {
      var head := CanonicalListHeadReads(s);
      var body := Drop(s, head.used);
      if IsBool(head.v.et) { BoolsReverse(head.v.et, head.v.count, body); } else { ItemsReverse(head.v.et, head.v.count, body); }
      ListReverse(t, s, head, body, ReadElements(head.v.et, head.v.count, body));
    } else if t == T_STRUCT {
      FieldsReverse(true, 0, s);
      StructReverse(s, ReadFields(0, s));
    } else {
      FixedReverse(t, s);
    }
  }

  lemma CanonicalListHeadReads(s: seq<byte>) returns (head: Read<ListHead>)
    requires CanonicalListHead(s)
    ensures head == ReadListHead(s) && head.Got? && 1 <= head.used <= |s|
  {
    head := ReadListHead(s);
  }

  lemma FixedReverse(t: Tag, s: seq<byte>)
    requires (t == T_BYTE && s != []) || (t == T_DOUBLE && 8 <= |s|)
    ensures WrittenBack(t, s, ReadValue(t, s))
  {
  }

  lemma IntReverse(t: Tag, s: seq<byte>)
    requires IsInt(t) && CanonicalInt(s)
    ensures WrittenBack(t, s, ReadValue(t, s))
  {
    hide ReadVarint, WriteVarint, ReadZigzag, WriteZigzag;
    CanonicalIntReverse(s);
    IntUnfold(t, s);
  }

  lemma IntUnfold(t: Tag, s: seq<byte>)
    requires IsInt(t) && CanonicalInt(s)
    ensures ReadZigzag(s).Got? && Int64(ReadZigzag(s).v) && ReadValue(t, s) == Got(Int(ReadZigzag(s).v), ReadZigzag(s).used)
  {
  }

  lemma BinaryReverse(s: seq<byte>)
    requires MinimalVarint(s) && ReadVarint(s).used + ReadVarint(s).v <= |s|
    ensures WrittenBack(T_BINARY, s, ReadValue(T_BINARY, s))
  {
    hide ReadVarint, WriteVarint;
    var r := ReadVarint(s);
    MinimalVarintReverse(s);
    Slices.TakeTake(s, r.used, r.v);
    assert ReadValue(T_BINARY, s) == Got(Bytes(s[r.used..][..r.v]), r.used + r.v);
    assert WriteValue(T_BINARY, Bytes(s[r.used..][..r.v])) == Ok(s[..r.used] + s[r.used..][..r.v]);
  }

  lemma {:induction false} BoolsReverse(et: Tag, count: nat, s: seq<byte>)
    requires IsBool(et) && CanonicalBools(count, s)
    ensures ElementsWrittenBack(et, count, s, ReadElements(et, count, s))
  {
    if count > 0 {
      assert Drop(s, 1) == s[1..];
      BoolsReverse(et, count - 1, s[1..]);
      var rest := ReadBools(count - 1, s[1..]);
      Slices.Uncons(Bool(s[0] == 1), rest.v);
      assert ReadBools(count, s) == Got([Bool(s[0] == 1)] + rest.v, rest.used + 1);
      Slices.TakeTake(s, 1, rest.used);
      assert s[..1] == [s[0]];
    }
  }

  lemma {:induction false} ItemsReverse(et: Tag, count: nat, s: seq<byte>)
    requires !IsBool(et) && CanonicalItems(et, count, s)
    ensures ElementsWrittenBack(et, count, s, ReadElements(et, count, s))
    decreases |s|, 2, count
  {
    hide ReadValue, WriteValue, Canonical, WrittenBack, ElementsWrittenBack, ReadElements;
    if count == 0 {
      NoItemsReverse(et, s);
    } else {
      Reverse(et, s);
      var one := ReadValue(et, s);
      var rest := Drop(s, one.used);
      ItemsReverse(et, count - 1, rest);
      ItemsReverseStep(et, count, s, one, rest, ReadElements(et, count - 1, rest));
    }
  }

  lemma NoItemsReverse(et: Tag, s: seq<byte>)
    ensures ElementsWrittenBack(et, 0, s, ReadElements(et, 0, s))
  {
  }

  lemma ItemsReverseStep(et: Tag, count: nat, s: seq<byte>, one: Read<Value>, rest: seq<byte>, more: Read<seq<Value>>)
    requires count > 0 && !IsBool(et)
    requires one == ReadValue(et, s) && WrittenBack(et, s, one) && rest == Drop(s, one.used)
    requires more == ReadElements(et, count - 1, rest) && ElementsWrittenBack(et, count - 1, rest, more)
    ensures ElementsWrittenBack(et, count, s, ReadElements(et, count, s))
  {
    hide ReadValue, WriteValue, Supported, ReadItems, WriteItems;
    ReadItemsUnfold(et, count, s, one.v, one.used, more.v, more.used);
    Slices.Uncons(one.v, more.v);
    WriteItemsUnfold(et, [one.v] + more.v, s[..one.used], rest[..more.used]);
    Slices.TakeTake(s, one.used, more.used);
  }

  lemma ListReverse(t: Tag, s: seq<byte>, head: Read<ListHead>, body: seq<byte>, r: Read<seq<Value>>)
    requires IsList(t) && CanonicalListHead(s) && head == ReadListHead(s) && body == Drop(s, head.used)
    requires r == ReadElements(head.v.et, head.v.count, body) && ElementsWrittenBack(head.v.et, head.v.count, body, r)
    ensures WrittenBack(t, s, ReadValue(t, s))
  {
    hide ReadValue, WriteValue, ReadElements, WriteElements, ReadListHead, WriteListHead, SupportedIn;
    ListHeadReverse(s);
    ReadListUnfold(t, s, head.v, head.used, r.v, r.used);
    WriteListUnfold(t, head.v.et, r.v, body[..r.used]);
    Slices.TakeTake(s, head.used, r.used);
  }

  lemma StructReverse(s: seq<byte>, r: Read<seq<Field>>)
    requires r == ReadFields(0, s) && FieldsWrittenBack(true, 0, s, r)
    ensures WrittenBack(T_STRUCT, s, ReadValue(T_STRUCT, s))
  {
    hide ReadFields, WriteFields, ReadValue, WriteValue, SupportedIn;
    SortedStaysPut(r.v);
    Slices.TakeSnoc(s, r.used);
    StructUnfold(s, r, s[..r.used - 1]);
  }

  lemma SortedStaysPut(fields: seq<Field>)
    requires forall i, j :: 0 <= i < j < |fields| ==> fields[i].fid <= fields[j].fid
    ensures SortFields(fields) == fields
  {
    ByIdIsTotalPreorder();
    StableSort.SortOfSorted(fields, ById);
  }

  lemma StructUnfold(s: seq<byte>, r: Read<seq<Field>>, body: seq<byte>)
    requires r == ReadFields(0, s) && r.Got? && SortFields(r.v) == r.v && WriteFields(0, r.v, Struct(r.v)) == Ok(body)
    ensures ReadValue(T_STRUCT, s) == Got(Struct(r.v), r.used)
    ensures WriteValue(T_STRUCT, Struct(r.v)) == Ok(body + [0])
  {
    hide ReadFields, WriteFields, SortFields;
  }

  lemma {:induction false} FieldsReverse(first: bool, last: int, s: seq<byte>)
    requires CanonicalFields(first, last, s)
    ensures FieldsWrittenBack(first, last, s, ReadFields(last, s))
    decreases |s|, 0
  {
    hide ReadFields, ReadValue, WriteFieldHead, WriteValue, WriteFields, FieldsWrittenBack, WrittenBack, Canonical, CanonicalFieldHead;
    if s[0] == 0 {
      NoFieldsReverse(first, last, s);
    } else {
      var head := HeadNotStop(first, last, s);
      var body := Drop(s, head.used);
      var val := ReadValue(head.v.ft, body);
      if IsBool(head.v.ft) { BoolReverse(head.v.ft, body); } else { Reverse(head.v.ft, body); }
      var rest := Drop(s, head.used + val.used);
      FieldsReverse(false, head.v.fid, rest);
      FieldHeadReverse(first, last, s);
      FieldsReverseStep(first, last, s, head, body, val, rest, ReadFields(head.v.fid, rest));
    }
  }

  lemma NoFieldsReverse(first: bool, last: int, s: seq<byte>)
    requires s != [] && s[0] == 0
    ensures FieldsWrittenBack(first, last, s, ReadFields(last, s))
  {
  }

  lemma BoolReverse(t: Tag, s: seq<byte>)
    requires IsBool(t)
    ensures ReadValue(t, s) == Got(Bool(t == T_TRUE), 0)
  {
  }

  lemma HeadNotStop(first: bool, last: int, s: seq<byte>) returns (head: Read<FieldHead>)
    requires CanonicalFieldHead(first, last, s)
    ensures s != [] && s[0] != 0 && head == ReadFieldHead(last, s) && head.Got? && 1 <= head.used <= |s|
    ensures Int64(head.v.fid) && (first || last <= head.v.fid)
  {
    head := ReadFieldHead(last, s);
  }

  /** A value of a field, boolean or not. */
  predicate BodyWrittenBack(t: Tag, body: seq<byte>, val: Read<Value>) {
    if IsBool(t) then val == Got(Bool(t == T_TRUE), 0) else WrittenBack(t, body, val)
  }

  lemma FieldsReverseStep(first: bool, last: int, s: seq<byte>, head: Read<FieldHead>, body: seq<byte>, val: Read<Value>,
                          rest: seq<byte>, more: Read<seq<Field>>)
    requires CanonicalFieldHead(first, last, s) && head == ReadFieldHead(last, s) && head.Got?
    requires WriteFieldHead(last, head.v.fid, head.v.ft) == s[..head.used]
    requires body == Drop(s, head.used) && val == ReadValue(head.v.ft, body) && BodyWrittenBack(head.v.ft, body, val)
    requires rest == Drop(s, head.used + val.used)
    requires more == ReadFields(head.v.fid, rest) && FieldsWrittenBack(false, head.v.fid, rest, more)
    ensures FieldsWrittenBack(first, last, s, ReadFields(last, s))
  {
    hide ReadFields, ReadValue, WriteFieldHead, WriteValue, WriteFields, Supported, CanonicalFieldHead, SupportedIn, Drop;
    var f := Field(head.v.fid, head.v.ft, val.v);
    var _ := HeadNotStop(first, last, s);
    BodySupported(head.v.ft, body, val);
    DropLength(s, head.used, val.used);
    ReadFieldsUnfold(last, s, head.v, head.used, val.v, val.used, more.v, more.used);
    WrittenReassembled(last, f, more.v, s, head.used, val, more.used);
    StillSorted(first, last, f, more.v);
    DropAt(s, head.used + val.used, more.used - 1);
  }

  lemma DropLength(s: seq<byte>, u: nat, v: nat)
    requires u <= |s| && v <= |Drop(s, u)|
    ensures u + v <= |s| && |Drop(s, u + v)| == |s| - u - v
  {
  }

  lemma DropAt(s: seq<byte>, u: nat, i: nat)
    requires i < |Drop(s, u)|
    ensures u + i < |s| && Drop(s, u)[i] == s[u + i]
  {
  }

  lemma WrittenReassembled(last: int, f: Field, more: seq<Field>, s: seq<byte>, u: nat, val: Read<Value>, w: nat)
    requires val.Got? && f.val == val.v && u + val.used + w <= |s| && w >= 1
    requires WriteFieldHead(last, f.fid, f.ft) == s[..u] && BodyWrittenBack(f.ft, Drop(s, u), val)
    requires WriteFields(f.fid, more, Struct(more)) == Ok(Drop(s, u + val.used)[..w - 1])
    ensures WriteFields(last, [f] + more, Struct([f] + more)) == Ok(s[..u + val.used + w - 1])
  {
    hide WriteFieldHead, WriteValue, WriteFields, Supported;
    Slices.TakeTake(s, u, val.used);
    Slices.TakeTake(s, u + val.used, w - 1);
    WriteReadField(last, f, more, s[..u], s[u..][..val.used], s[u + val.used..][..w - 1]);
  }

  lemma BodySupported(t: Tag, body: seq<byte>, val: Read<Value>)
    requires BodyWrittenBack(t, body, val)
    ensures val.Got? && val.used <= |body| && SupportedIn(t, val.v)
  {
  }

  lemma StillSorted(first: bool, last: int, f: Field, more: seq<Field>)
    requires Int64(f.fid) && (first || last <= f.fid) && SupportedIn(f.ft, f.val)
    requires forall g :: g in more ==> Int64(g.fid) && SupportedIn(g.ft, g.val) && f.fid <= g.fid
    requires forall i, j :: 0 <= i < j < |more| ==> more[i].fid <= more[j].fid
    ensures forall g :: g in [f] + more ==> Int64(g.fid) && SupportedIn(g.ft, g.val) && (first || last <= g.fid)
    ensures forall i, j :: 0 <= i < j < |[f] + more| ==> ([f] + more)[i].fid <= ([f] + more)[j].fid
  {
    hide SupportedIn;
  }

  lemma WriteReadField(last: int, f: Field, more: seq<Field>, head: seq<byte>, body: seq<byte>, rest: seq<byte>)
    requires WriteFieldHead(last, f.fid, f.ft) == head
    requires if IsBool(f.ft) then f.val == Bool(f.ft == T_TRUE) && body == [] else WriteValue(f.ft, f.val) == Ok(body)
    requires WriteFields(f.fid, more, Struct(more)) == Ok(rest)
    ensures WriteFields(last, [f] + more, Struct([f] + more)) == Ok((head + body) + rest)
  {
    hide WriteFieldHead, WriteValue, WriteFields;
    var fields := [f] + more;
    Slices.Uncons(f, more);
    OwnerIrrelevant(f.fid, more, Struct(more), Struct(fields));
    WriteFieldsUnfold(last, fields, Struct(fields), body, rest);
  }

  lemma {:induction false} OwnerIrrelevant(last: int, fields: seq<Field>, a: Value, b: Value)
    requires a.Struct? && b.Struct? && forall f :: f in fields ==> f in a.fields && f in b.fields
    ensures WriteFields(last, fields, a) == WriteFields(last, fields, b)
    decreases |fields|
  {
    hide WriteValue, WriteFieldHead;
    if fields != [] { OwnerIrrelevant(fields[0].fid, fields[1..], a, b); }
  }
}
