/** The reader as an object that moves through its buffer. Each method does what the reading function says of the
    bytes from the position it started at, and moves by what that used; the writer's varint loop is here too. */
module ThriftReader {
  import opened Bits
  import opened Thrift
  import Slices

  datatype Outcome<+T> = Returned(v: T) | Raised(error: Error)

  /** A call that started at `before` and left the position at `after` did what `spec` says. */
  predicate Follows<T(==)>(spec: Read<T>, r: Outcome<T>, before: nat, after: nat) {
    match spec
    case Got(v, used) => r == Returned(v) && after == before + used
    case Fail(e) => r == Raised(e)
  }

  /** The outcome of reading a sequence whose first elements `acc` have been read already, in `used` bytes. */
  function After<T>(acc: seq<T>, used: nat, r: Read<seq<T>>): Read<seq<T>> {
    match r
    case Got(rest, more) => Got(acc + rest, used + more)
    case Fail(e) => Fail(e)
  }

  lemma AfterOne<T>(acc: seq<T>, used: nat, x: T, n: nat, r: Read<seq<T>>)
    ensures After(acc, used, After([x], n, r)) == After(acc + [x], used + n, r)
  {
    if r.Got? { Slices.Assoc(acc, [x], r.v); }
  }

  lemma DropMore(s: seq<byte>, u: nat, v: nat)
    ensures Drop(s, u + v) == Drop(Drop(s, u), v)
  {
    if u + v <= |s| { Slices.DropDrop(s, u, v); }
  }

  lemma DropByte(s: seq<byte>)
    requires s != []
    ensures Drop(s, 1) == s[1..]
  {
  }

  lemma DropSome(s: seq<byte>, u: nat)
    requires s != [] && u > 0
    ensures |Drop(s, u)| < |s|
  {
  }

  lemma ReadItemsAsAfter(et: Tag, count: nat, s: seq<byte>)
    requires count > 0
    ensures ReadItems(et, count, s) ==
            match ReadValue(et, s)
            case Got(v, used) => After([v], used, ReadItems(et, count - 1, Drop(s, used)))
            case Fail(e) => Fail(e)
  {
    hide ReadValue;
  }

  lemma ReadBoolsAsAfter(count: nat, s: seq<byte>)
    requires count > 0
    ensures ReadBools(count, s) ==
            match ReadByte(s)
            case Got(b, used) => After([Bool(b == 1)], used, ReadBools(count - 1, Drop(s, used)))
            case Fail(e) => Fail(e)
  {
  }

  /** One field, header and value. */
  function ReadField(last: int, s: seq<byte>): Read<Field>
    requires s != [] && s[0] != 0
  {
    match ReadFieldHead(last, s)
    case Fail(e) => Fail(e)
    case Got(head, used) =>
      match ReadValue(head.ft, Drop(s, used))
      case Fail(e) => Fail(e)
      case Got(v, more) => Got(Field(head.fid, head.ft, v), used + more)
  }

  lemma ReadFieldsAsAfter(last: int, s: seq<byte>)
    requires s != [] && s[0] != 0
    ensures ReadFields(last, s) ==
            match ReadField(last, s)
            case Got(f, used) => After([f], used, ReadFields(f.fid, Drop(s, used)))
            case Fail(e) => Fail(e)
  {
    hide ReadValue, ReadFieldHead;
  }

  class Reader {
    const buf: seq<byte>
    var pos: nat

    constructor (buf: seq<byte>)
      ensures this.buf == buf && pos == 0
    {
      this.buf, pos := buf, 0;
    }

    function Rest(): seq<byte>
      reads this
    {
      Drop(buf, pos)
    }

    method Byte() returns (r: Outcome<byte>)
      modifies this
      ensures Follows(ReadByte(old(Rest())), r, old(pos), pos)
    {
      pos := pos + 1;
      if pos - 1 < |buf| { r := Returned(buf[pos - 1]); } else { r := Raised(IndexError); }
    }

    method Varint() returns (r: Outcome<nat>)
      modifies this
      ensures Follows(ReadVarint(old(Rest())), r, old(pos), pos)
    {
      hide Or, Pow2, ReadVarint;
      var out: nat, shift: nat := 0, 0;
      Pow2Zero();
      assert Above(0, 1, 0, ReadVarint(Rest())) == ReadVarint(Rest());
      while true
        invariant old(pos) <= pos && out < Pow2(shift)
        invariant ReadVarint(old(Rest())) == Above(out, Pow2(shift), pos - old(pos), ReadVarint(Rest()))
        decreases |Rest()|
      {
        ghost var p, s := pos, Rest();
        NoVarint(s);
        var b := Byte();
        if b.Raised? { return Raised(b.error); }
        DropMore(buf, p, 1);
        VarintStep(out, Pow2(shift), p - old(pos), s);
        OrAbove(out, b.v % 128, shift);
        Pow2Plus7(shift);
        out := Or(out, b.v % 128 * Pow2(shift));
        shift := shift + 7;
        if b.v < 128 { return Returned(out); }
      }
    }

    method ZigzagInt() returns (r: Outcome<int>)
      modifies this
      ensures Follows(ReadZigzag(old(Rest())), r, old(pos), pos)
    {
      var n := Varint();
      if n.Raised? { return Raised(n.error); }
      r := Returned(Unzigzag(n.v));
    }

    /** `buf[pos:pos + n]` after moving past it. */
    method Slice(n: nat) returns (v: seq<byte>)
      modifies this
      ensures v == Take(old(Rest()), n) && pos == old(pos) + n
    {
      v := Take(Rest(), n);
      pos := pos + n;
    }

    method ListHeader() returns (r: Outcome<ListHead>)
      modifies this
      ensures Follows(ReadListHead(old(Rest())), r, old(pos), pos)
    {
      var h := Byte();
      if h.Raised? { return Raised(h.error); }
      DropMore(buf, pos - 1, 1);
      var n: nat := h.v / 16;
      if n == 15 {
        var m := Varint();
        if m.Raised? { return Raised(m.error); }
        n := m.v;
      }
      r := Returned(ListHead(n, h.v % 16));
    }

    method ReadAny(t: Tag) returns (r: Outcome<Value>)
      modifies this
      ensures Follows(ReadValue(t, old(Rest())), r, old(pos), pos)
      decreases |Drop(buf, pos)|, 1
    {
      hide ReadItems, ReadBools, ReadFields, ReadVarint, ReadZigzag, ReadListHead;
      if IsBool(t) { return Returned(Bool(t == T_TRUE)); }
      if t == T_BYTE {
        var b := Byte();
        return if b.Returned? then Returned(Int(b.v)) else Raised(b.error);
      }
      if IsInt(t) {
        var n := ZigzagInt();
        return if n.Returned? then Returned(Int(n.v)) else Raised(n.error);
      }
      if t == T_DOUBLE {
        var s := Slice(8);
        return Returned(Bytes(s));
      }
      if t == T_BINARY {
        var n := Varint();
        if n.Raised? { return Raised(n.error); }
        DropMore(buf, old(pos), pos - old(pos));
        var s := Slice(n.v);
        return Returned(Bytes(s));
      }
      if IsList(t) {
        var h := ListHeader();
        if h.Raised? { return Raised(h.error); }
        DropMore(buf, old(pos), pos - old(pos));
        var items: Outcome<seq<Value>>;
        if IsBool(h.v.et) { items := Flags(h.v.count); } else { items := Items(h.v.et, h.v.count); }
        return if items.Returned? then Returned(List(h.v.et, items.v)) else Raised(items.error);
      }
      if t == T_STRUCT {
        var fields := Fields();
        return if fields.Returned? then Returned(Struct(fields.v)) else Raised(fields.error);
      }
      r := Raised(UnsupportedType);
    }

    method Flags(count: nat) returns (r: Outcome<seq<Value>>)
      modifies this
      ensures Follows(ReadBools(count, old(Rest())), r, old(pos), pos)
    {
      hide ReadBools;
      var items := [];
      NothingRead(ReadBools(count, Rest()));
      for i := 0 to count
        invariant old(pos) <= pos
        invariant ReadBools(count, old(Rest())) == After(items, pos - old(pos), ReadBools(count - i, Rest()))
      {
        ReadBoolsAsAfter(count - i, Rest());
        ghost var p := pos;
        var b := Byte();
        if b.Raised? { return Raised(b.error); }
        DropMore(buf, p, 1);
        AfterOne(items, p - old(pos), Bool(b.v == 1), 1, ReadBools(count - i - 1, Rest()));
        items := items + [Bool(b.v == 1)];
      }
      NoBools(Rest());
      AllRead(items, pos - old(pos), 0);
      r := Returned(items);
    }

    method Items(et: Tag, count: nat) returns (r: Outcome<seq<Value>>)
      modifies this
      ensures Follows(ReadItems(et, count, old(Rest())), r, old(pos), pos)
      decreases |Drop(buf, pos)|, 2
    {
      hide ReadItems, ReadValue;
      var items := [];
      NothingRead(ReadItems(et, count, Rest()));
      for i := 0 to count
        invariant old(pos) <= pos
        invariant ReadItems(et, count, old(Rest())) == After(items, pos - old(pos), ReadItems(et, count - i, Rest()))
      {
        ReadItemsAsAfter(et, count - i, Rest());
        ghost var p := pos;
        DropMore(buf, old(pos), p - old(pos));
        var v := ReadAny(et);
        if v.Raised? { return Raised(v.error); }
        DropMore(buf, p, pos - p);
        AfterOne(items, p - old(pos), v.v, pos - p, ReadItems(et, count - i - 1, Rest()));
        items := items + [v.v];
      }
      NoItems(et, Rest());
      AllRead(items, pos - old(pos), 0);
      r := Returned(items);
    }

    /** The header of one field, after its first byte `h`. */
    method FieldHeader(last: int, h: byte, ghost s: seq<byte>) returns (r: Outcome<FieldHead>)
      requires s != [] && h == s[0] && h != 0 && Rest() == s[1..]
      modifies this
      ensures ReadFieldHead(last, s).Got? ==> pos == old(pos) + ReadFieldHead(last, s).used - 1
      ensures r == match ReadFieldHead(last, s) case Got(head, _) => Returned(head) case Fail(e) => Raised(e)
    {
      if h / 16 != 0 { return Returned(FieldHead(last + h / 16, h % 16)); }
      var fid := ZigzagInt();
      r := if fid.Returned? then Returned(FieldHead(fid.v, h % 16)) else Raised(fid.error);
    }

    /** One field, after the first byte `h` of `s`. */
    method FieldBody(last: int, h: byte, ghost s: seq<byte>) returns (r: Outcome<Field>)
      requires s != [] && h == s[0] && h != 0 && pos > 0 && s == Drop(buf, pos - 1) && Rest() == s[1..]
      modifies this
      ensures Follows(ReadField(last, s), r, old(pos) - 1, pos)
      decreases |Drop(buf, pos)|, 2
    {
      hide ReadValue, ReadFieldHead;
      var head := FieldHeader(last, h, s);
      if head.Raised? { return Raised(head.error); }
      FieldHeadUses(last, s);
      ghost var used := ReadFieldHead(last, s).used;
      assert pos == old(pos) - 1 + used;
      DropMore(buf, old(pos) - 1, used);
      DropMore(buf, old(pos), used - 1);
      var v := ReadAny(head.v.ft);
      r := if v.Returned? then Returned(Field(head.v.fid, head.v.ft, v.v)) else Raised(v.error);
    }

    method Fields() returns (r: Outcome<seq<Field>>)
      modifies this
      ensures Follows(ReadFields(0, old(Rest())), r, old(pos), pos)
      decreases |Drop(buf, pos)|, 0
    {
      hide ReadFields, ReadField, Drop;
      var fields, last := [], 0;
      NothingRead(ReadFields(0, Rest()));
      while true
        invariant old(pos) <= pos
        invariant ReadFields(0, old(Rest())) == After(fields, pos - old(pos), ReadFields(last, Rest()))
        decreases |Rest()|
      {
        ghost var p, s := pos, Rest();
        DropMore(buf, old(pos), p - old(pos));
        NoFields(last, s);
        var h := Byte();
        if h.Raised? { return Raised(h.error); }
        AllRead(fields, p - old(pos), 1);
        if h.v == 0 { return Returned(fields); }
        DropMore(buf, p, 1);
        DropByte(s);
        ReadFieldsAsAfter(last, s);
        if ReadField(last, s).Got? { ReadFieldUses(last, s); }
        var f := FieldBody(last, h.v, s);
        if f.Raised? { return Raised(f.error); }
        DropMore(buf, p, pos - p);
        DropSome(s, pos - p);
        AfterOne(fields, p - old(pos), f.v, pos - p, ReadFields(f.v.fid, Rest()));
        fields, last := fields + [f.v], f.v.fid;
      }
    }
  }

  lemma ReadFieldUses(last: int, s: seq<byte>)
    requires s != [] && s[0] != 0 && ReadField(last, s).Got?
    ensures ReadField(last, s).used >= 1
  {
    hide ReadValue;
  }

  /** The outcome of a varint whose bytes so far, `used` of them, gave `out`; the next byte counts `p` times. */
  function Above(out: nat, p: nat, used: nat, r: Read<nat>): Read<nat> {
    match r
    case Got(v, more) => Got(out + v * p, used + more)
    case Fail(e) => Fail(e)
  }

  lemma NoVarint(s: seq<byte>)
    ensures s == [] ==> ReadVarint(s) == Fail(IndexError)
  {
  }

  lemma VarintStep(out: nat, p: nat, used: nat, s: seq<byte>)
    requires s != [] && out < p
    ensures out + s[0] % 128 * p < 128 * p
    ensures Above(out, p, used, ReadVarint(s)) ==
            if s[0] < 128 then Got(out + s[0] % 128 * p, used + 1)
            else Above(out + s[0] % 128 * p, 128 * p, used + 1, ReadVarint(s[1..]))
  {
    var v := if s[0] >= 128 && ReadVarint(s[1..]).Got? then ReadVarint(s[1..]).v else 0;
    Accumulate(out, s[0] % 128, p, v);
  }

  lemma Accumulate(out: nat, low: nat, p: nat, v: nat)
    requires low < 128 && out < p
    ensures out + low * p < 128 * p
    ensures out + (low + 128 * v) * p == (out + low * p) + v * (128 * p)
  {
    assert low * p <= 127 * p;
    assert (128 * v) * p == v * (128 * p);
  }

  lemma NothingRead<T>(r: Read<seq<T>>)
    ensures After([], 0, r) == r
  {
    if r.Got? { assert [] + r.v == r.v; }
  }

  lemma AllRead<T>(acc: seq<T>, used: nat, k: nat)
    ensures After(acc, used, Got([], k)) == Got(acc, used + k)
  {
    assert acc + [] == acc;
  }

  lemma NoBools(s: seq<byte>)
    ensures ReadBools(0, s) == Got([], 0)
  {
  }

  lemma NoItems(et: Tag, s: seq<byte>)
    ensures ReadItems(et, 0, s) == Got([], 0)
  {
  }

  lemma NoFields(last: int, s: seq<byte>)
    ensures s == [] ==> ReadFields(last, s) == Fail(IndexError)
    ensures s != [] && s[0] == 0 ==> ReadFields(last, s) == Got([], 1)
  {
  }

  lemma FieldHeadUses(last: int, s: seq<byte>)
    requires s != [] && s[0] != 0 && ReadFieldHead(last, s).Got?
    ensures 1 <= ReadFieldHead(last, s).used <= |s|
  {
  }

  /** The writer's loop over seven bits at a time. */
  method WriteVarintLoop(v: nat) returns (out: seq<byte>)
    ensures out == WriteVarint(v)
  {
    var left := v;
    out := [];
    while left >= 128
      invariant WriteVarint(v) == out + WriteVarint(left)
    {
      Slices.Assoc(out, [left % 128 + 128], WriteVarint(left / 128));
      out := out + [left % 128 + 128];
      left := left / 128;
    }
    out := out + [left];
  }
}
