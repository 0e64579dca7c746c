/** The Thrift compact protocol: its reader and its writer. */
module Thrift {
  import opened Options
  import opened Bits
  import StableSort

  type byte = b: int | 0 <= b < 256

  /** A type nibble. */
  type Tag = t: int | 0 <= t < 16

  const T_TRUE: Tag := 1
  const T_FALSE: Tag := 2
  const T_BYTE: Tag := 3
  const T_I16: Tag := 4
  const T_I32: Tag := 5
  const T_I64: Tag := 6
  const T_DOUBLE: Tag := 7
  const T_BINARY: Tag := 8
  const T_LIST: Tag := 9
  const T_SET: Tag := 10
  const T_MAP: Tag := 11
  const T_STRUCT: Tag := 12

  predicate IsBool(t: Tag) { t == T_TRUE || t == T_FALSE }
  predicate IsInt(t: Tag) { t == T_I16 || t == T_I32 || t == T_I64 }
  predicate IsList(t: Tag) { t == T_LIST || t == T_SET }

  datatype Value =
    | Bool(b: bool)
    | Int(n: int)
    | Bytes(s: seq<byte>)
    | List(et: Tag, items: seq<Value>)
    | Struct(fields: seq<Field>)

  datatype Field = Field(fid: int, ft: Tag, val: Value)

  datatype Error = IndexError | UnsupportedType | WrongValue

  datatype Read<+T> = Got(v: T, used: nat) | Fail(error: Error)

  datatype Written = Ok(bytes: seq<byte>) | Refused(error: Error)

  /** `buf[used:]`: slicing past the end is empty, not an error. */
  function Drop(s: seq<byte>, used: nat): (r: seq<byte>)
    ensures |r| <= |s|
  {
    if used <= |s| then s[used..] else []
  }

  function Take(s: seq<byte>, n: nat): seq<byte> {
    if n <= |s| then s[..n] else s
  }

  // ---- Reading ----

  function ReadByte(s: seq<byte>): Read<byte> {
    if s == [] then Fail(IndexError) else Got(s[0], 1)
  }

  function ReadVarint(s: seq<byte>): (r: Read<nat>)
    ensures r.Got? ==> 1 <= r.used <= |s|
  {
    if s == [] then Fail(IndexError)
    else if s[0] < 128 then Got(s[0], 1)
    else
      match ReadVarint(s[1..])
      case Got(v, used) => Got(s[0] - 128 + 128 * v, used + 1)
      case Fail(e) => Fail(e)
  }

  function ReadZigzag(s: seq<byte>): (r: Read<int>)
    ensures r.Got? ==> 1 <= r.used <= |s|
  {
    match ReadVarint(s)
    case Got(n, used) => Got(Unzigzag(n), used)
    case Fail(e) => Fail(e)
  }

  datatype ListHead = ListHead(count: nat, et: Tag)

  function ReadListHead(s: seq<byte>): (r: Read<ListHead>)
    ensures r.Got? ==> 1 <= r.used <= |s|
  {
    if s == [] then Fail(IndexError)
    else if s[0] / 16 != 15 then Got(ListHead(s[0] / 16, s[0] % 16), 1)
    else
      match ReadVarint(s[1..])
      case Got(n, used) => Got(ListHead(n, s[0] % 16), used + 1)
      case Fail(e) => Fail(e)
  }

  function ReadValue(t: Tag, s: seq<byte>): Read<Value>
    decreases |s|, 1
  {
    if IsBool(t) then Got(Bool(t == T_TRUE), 0)
    else if t == T_BYTE then
      match ReadByte(s)
      case Got(b, used) => Got(Int(b), used)
      case Fail(e) => Fail(e)
    else if IsInt(t) then
      match ReadZigzag(s)
      case Got(n, used) => Got(Int(n), used)
      case Fail(e) => Fail(e)
    else if t == T_DOUBLE then Got(Bytes(Take(s, 8)), 8)
    else if t == T_BINARY then
      match ReadVarint(s)
      case Got(n, used) => Got(Bytes(Take(Drop(s, used), n)), used + n)
      case Fail(e) => Fail(e)
    else if IsList(t) then
      match ReadListHead(s)
      case Fail(e) => Fail(e)
      case Got(head, used) =>
        match if IsBool(head.et) then ReadBools(head.count, Drop(s, used)) else ReadItems(head.et, head.count, Drop(s, used))
        case Got(items, more) => Got(List(head.et, items), used + more)
        case Fail(e) => Fail(e)
    else if t == T_STRUCT then
      match ReadFields(0, s)
      case Got(fields, used) => Got(Struct(fields), used)
      case Fail(e) => Fail(e)
    else Fail(UnsupportedType)
  }

  /** List elements of boolean type take a byte each; only 1 is true. */
  function ReadBools(count: nat, s: seq<byte>): Read<seq<Value>>
    decreases count
  {
    if count == 0 then Got([], 0)
    else
      match ReadByte(s)
      case Fail(e) => Fail(e)
      case Got(b, used) =>
        match ReadBools(count - 1, Drop(s, used))
        case Got(rest, more) => Got([Bool(b == 1)] + rest, used + more)
        case Fail(e) => Fail(e)
  }

  function ReadItems(et: Tag, count: nat, s: seq<byte>): Read<seq<Value>>
    decreases |s|, 2, count
  {
    if count == 0 then Got([], 0)
    else
      match ReadValue(et, s)
      case Fail(e) => Fail(e)
      case Got(v, used) =>
        match ReadItems(et, count - 1, Drop(s, used))
        case Got(rest, more) => Got([v] + rest, used + more)
        case Fail(e) => Fail(e)
  }

  datatype FieldHead = FieldHead(fid: int, ft: Tag)

  /** The bytes before a field's value, after a field numbered `last`; the stop byte is not a field. */
  function ReadFieldHead(last: int, s: seq<byte>): (r: Read<FieldHead>)
    requires s != [] && s[0] != 0
    ensures r.Got? ==> 1 <= r.used <= |s|
  {
    if s[0] / 16 != 0 then Got(FieldHead(last + s[0] / 16, s[0] % 16), 1)
    else
      match ReadZigzag(s[1..])
      case Got(fid, used) => Got(FieldHead(fid, s[0] % 16), used + 1)
      case Fail(e) => Fail(e)
  }

  function ReadFields(last: int, s: seq<byte>): Read<seq<Field>>
    decreases |s|, 0
  {
    if s == [] then Fail(IndexError)
    else if s[0] == 0 then Got([], 1)
    else
      match ReadFieldHead(last, s)
      case Fail(e) => Fail(e)
      case Got(head, used) =>
        match ReadValue(head.ft, Drop(s, used))
        case Fail(e) => Fail(e)
        case Got(v, more) =>
          match ReadFields(head.fid, Drop(s, used + more))
          case Got(rest, last') => Got([Field(head.fid, head.ft, v)] + rest, used + more + last')
          case Fail(e) => Fail(e)
  }

  // ---- Writing ----

  function WriteVarint(v: nat): seq<byte> {
    if v < 128 then [v] else [v % 128 + 128] + WriteVarint(v / 128)
  }

  function WriteZigzag(v: int): seq<byte> {
    WriteVarint(Zigzag(v))
  }

  function WriteListHead(et: Tag, count: nat): seq<byte> {
    if count < 15 then [count * 16 + et] else [240 + et] + WriteVarint(count)
  }

  const ById: (Field, Field) -> bool := (a: Field, b: Field) => a.fid <= b.fid

  function SortFields(fields: seq<Field>): (r: seq<Field>)
    ensures |r| == |fields|
    ensures forall f :: f in r <==> f in fields
  {
    StableSort.Sort(fields, ById)
  }

  function WriteValue(t: Tag, v: Value): Written
    decreases v, 1
  {
    if t == T_BYTE then
      if v.Int? && 0 <= v.n < 256 then Ok([v.n]) else Refused(WrongValue)
    else if IsInt(t) then
      if v.Int? then Ok(WriteZigzag(v.n)) else Refused(WrongValue)
    else if t == T_DOUBLE then
      if v.Bytes? then Ok(v.s) else Refused(WrongValue)
    else if t == T_BINARY then
      if v.Bytes? then Ok(WriteVarint(|v.s|) + v.s) else Refused(WrongValue)
    else if IsList(t) then
      if !v.List? then Refused(WrongValue)
      else
        match if IsBool(v.et) then WriteBools(v.items) else WriteItems(v.et, v.items)
        case Ok(body) => Ok(WriteListHead(v.et, |v.items|) + body)
        case Refused(e) => Refused(e)
    else if t == T_STRUCT then
      if !v.Struct? then Refused(WrongValue)
      else
        match WriteFields(0, SortFields(v.fields), v)
        case Ok(body) => Ok(body + [0])
        case Refused(e) => Refused(e)
    else Refused(UnsupportedType)
  }

  function WriteBools(items: seq<Value>): Written {
    if items == [] then Ok([])
    else if !items[0].Bool? then Refused(WrongValue)
    else
      match WriteBools(items[1..])
      case Ok(rest) => Ok([if items[0].b then 1 else 2] + rest)
      case Refused(e) => Refused(e)
  }

  function WriteItems(et: Tag, items: seq<Value>): Written
    decreases items, 0
  {
    if items == [] then Ok([])
    else
      match WriteValue(et, items[0])
      case Refused(e) => Refused(e)
      case Ok(first) =>
        match WriteItems(et, items[1..])
        case Ok(rest) => Ok(first + rest)
        case Refused(e) => Refused(e)
  }

  /** A boolean field's value lives in its type nibble. */
  function WireTag(f: Field): Tag {
    if IsBool(f.ft) && f.val.Bool? then
      if f.val.b then T_TRUE else T_FALSE
    else f.ft
  }

  function WriteFieldHead(last: int, fid: int, wire: Tag): seq<byte> {
    if 0 < fid - last <= 15 then [(fid - last) * 16 + wire] else [wire] + WriteZigzag(fid)
  }

  /** `fields` of the struct `owner`, in the order given. */
  function WriteFields(last: int, fields: seq<Field>, ghost owner: Value): Written
    requires owner.Struct? && forall f :: f in fields ==> f in owner.fields
    decreases owner, 0, |fields|
  {
    if fields == [] then Ok([])
    else
      var f := fields[0];
      assert f in owner.fields;
      var body := if IsBool(f.ft) then (if f.val.Bool? then Ok([]) else Refused(WrongValue)) else WriteValue(f.ft, f.val);
      match body
      case Refused(e) => Refused(e)
      case Ok(bytes) =>
        match WriteFields(f.fid, fields[1..], owner)
        case Ok(rest) => Ok(WriteFieldHead(last, f.fid, WireTag(f)) + bytes + rest)
        case Refused(e) => Refused(e)
  }

  // ---- Editing ----

  /** The first field with this id. */
  function FindField(fields: seq<Field>, fid: int): Option<Field> {
    if fields == [] then None
    else if fields[0].fid == fid then Some(fields[0])
    else FindField(fields[1..], fid)
  }

  function Get(fields: seq<Field>, fid: int): Option<Value> {
    match FindField(fields, fid)
    case Some(f) => Some(f.val)
    case None => None
  }

  /** Assigning to the value of the first field with this id. */
  function Set(fields: seq<Field>, fid: int, v: Value): (r: seq<Field>)
    ensures |r| == |fields|
  {
    if fields == [] then []
    else if fields[0].fid == fid then [fields[0].(val := v)] + fields[1..]
    else [fields[0]] + Set(fields[1..], fid, v)
  }

  /** An assignment is seen at its own id and nowhere else. */
  lemma {:induction false} GetSet(fields: seq<Field>, a: int, v: Value, b: int)
    ensures Get(Set(fields, a, v), b) ==
            if a == b then (if Get(fields, a).Some? then Some(v) else None) else Get(fields, b)
    ensures FindField(Set(fields, a, v), b) ==
            if a == b && FindField(fields, a).Some? then Some(FindField(fields, a).value.(val := v)) else FindField(fields, b)
  {
    if fields != [] {
      GetSet(fields[1..], a, v, b);
      assert fields[0].fid == a ==> Set(fields, a, v)[1..] == fields[1..];
      assert fields[0].fid != a ==> Set(fields, a, v)[1..] == Set(fields[1..], a, v);
    }
  }

  lemma {:induction false} FoundIsIn(fields: seq<Field>, fid: int)
    ensures FindField(fields, fid).Some? ==> FindField(fields, fid).value in fields && FindField(fields, fid).value.fid == fid
  {
    if fields != [] && fields[0].fid != fid { FoundIsIn(fields[1..], fid); }
  }
}
