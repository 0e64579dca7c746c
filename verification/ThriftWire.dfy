/** The bytes themselves, as the protocol's specification gives them. */
module ThriftWire {
  import opened Bits
  import opened Thrift
  import StableSort

  /** The types' numbers. */
  const BOOLEAN_TRUE := 1
  const BOOLEAN_FALSE := 2
  const I8 := 3
  const I16 := 4
  const I32 := 5
  const I64 := 6
  const DOUBLE := 7
  const BINARY := 8
  const LIST := 9
  const SET := 10
  const STRUCT := 12

  /** An integer without a sign: seven bits a byte, the lowest first, and the high bit set in all bytes but the last. */
  lemma {:induction false} VarintBytes(v: nat)
    ensures v < 128 ==> WriteVarint(v) == [v]
    ensures 128 <= v < 16384 ==> WriteVarint(v) == [128 + v % 128, v / 128]
    ensures ValueOf7(WriteVarint(v)) == v
    ensures var b := WriteVarint(v); forall i :: 0 <= i < |b| ==> (b[i] >= 128 <==> i < |b| - 1)
  {
    if v >= 128 { VarintBytes(v / 128); }
  }

  /** The number whose digits to the base 128 are the low seven bits of the bytes, lowest first. */
  function ValueOf7(bytes: seq<byte>): nat {
    if bytes == [] then 0 else bytes[0] % 128 + 128 * ValueOf7(bytes[1..])
  }

  /** A signed integer: 0, -1, 1, -2, 2, and so on, are written as 0, 1, 2, 3, 4. */
  lemma ZigzagBytes(n: int)
    requires Int64(n)
    ensures WriteZigzag(n) == WriteVarint(if n >= 0 then 2 * n else -2 * n - 1)
  {
    ZigzagClosed(n);
  }

  /** A struct of one field whose id is at most 15: the id and the type in one byte, the value, and a zero. A boolean is its type
      alone. */
  lemma OneField(id: int, ft: Tag, val: Value)
    requires 1 <= id <= 15
    ensures var w := WriteValue(STRUCT, Struct([Field(id, ft, val)]));
      && (val.Bool? && (ft == BOOLEAN_TRUE || ft == BOOLEAN_FALSE) ==>
           w == Ok([16 * id + if val.b then BOOLEAN_TRUE else BOOLEAN_FALSE, 0]))
      && (ft != BOOLEAN_TRUE && ft != BOOLEAN_FALSE && WriteValue(ft, val).Ok? ==>
           w == Ok([16 * id + ft] + WriteValue(ft, val).bytes + [0]))
  {
    hide WriteValue;
    var f := Field(id, ft, val);
    var v := Struct([f]);
    SortedOne(f);
    OneWritten(f);
    assert WriteValue(STRUCT, v) == match WriteFields(0, SortFields(v.fields), v) case Ok(b) => Ok(b + [0]) case Refused(e) => Refused(e)
      by { StructBytes(v); }
  }

  lemma SortedOne(f: Field)
    ensures SortFields([f]) == [f]
  {
    assert [f][1..] == [];
    assert StableSort.Sort<Field>([], ById) == [];
  }

  lemma StructBytes(v: Value)
    requires v.Struct?
    ensures WriteValue(STRUCT, v) == match WriteFields(0, SortFields(v.fields), v) case Ok(b) => Ok(b + [0]) case Refused(e) => Refused(e)
  {
    hide WriteFields, SortFields;
  }

  lemma OneWritten(f: Field)
    requires 1 <= f.fid <= 15
    ensures var v := Struct([f]);
            WriteFields(0, [f], v) ==
            if IsBool(f.ft) then (if f.val.Bool? then Ok([16 * f.fid + if f.val.b then T_TRUE else T_FALSE]) else Refused(WrongValue))
            else match WriteValue(f.ft, f.val) case Ok(b) => Ok([16 * f.fid + f.ft] + b) case Refused(e) => Refused(e)
  {
    hide WriteValue;
    var v := Struct([f]);
    assert [f][1..] == [];
    assert WriteFields(f.fid, [], v) == Ok([]);
  }

  /** The values: a byte, a signed integer, eight bytes, a length and so many bytes, and a list's length and type in one byte or,
      from fifteen elements on, 15 and the type in one byte and the length after it. */
  lemma ValueBytes(n: int, s: seq<byte>, et: Tag, items: seq<Value>, t: Tag)
    ensures 0 <= n < 256 ==> WriteValue(I8, Int(n)) == Ok([n])
    ensures Int64(n) && t in {I16, I32, I64} ==> WriteValue(t, Int(n)) == Ok(WriteVarint(if n >= 0 then 2 * n else -2 * n - 1))
    ensures WriteValue(DOUBLE, Bytes(s)) == Ok(s)
    ensures WriteValue(BINARY, Bytes(s)) == Ok(WriteVarint(|s|) + s)
    ensures WriteValue(LIST, List(et, items)) == WriteValue(SET, List(et, items))
    ensures et == BOOLEAN_TRUE && (forall i :: 0 <= i < |items| ==> items[i] == Bool(true)) && |items| < 15 ==>
      WriteValue(LIST, List(et, items)) == Ok([16 * |items| + 1] + seq(|items|, _ => 1))
    ensures et == BOOLEAN_FALSE && (forall i :: 0 <= i < |items| ==> items[i] == Bool(false)) && |items| >= 15 ==>
      WriteValue(LIST, List(et, items)) == Ok([242] + WriteVarint(|items|) + seq(|items|, _ => 2))
  {
    hide WriteVarint, WriteItems;
    if Int64(n) { ZigzagBytes(n); }
    if forall i :: 0 <= i < |items| ==> items[i] == Bool(true) { SameBools(items, true); }
    if forall i :: 0 <= i < |items| ==> items[i] == Bool(false) { SameBools(items, false); }
  }

  lemma {:induction false} SameBools(items: seq<Value>, b: bool)
    requires forall i :: 0 <= i < |items| ==> items[i] == Bool(b)
    ensures WriteBools(items) == Ok(seq(|items|, _ => if b then 1 else 2))
  {
    if items != [] { SameBools(items[1..], b); }
  }
}
