/** Three more readers of the same protocol, and where they agree. */
module ThriftGrammar {
  import opened Options
  import opened Bits
  import opened Thrift
  import Slices

  // ---- The index checker's reader: structs as dictionaries ----

  datatype Plain =
    | PBool(b: bool)
    | PInt(n: int)
    | PBytes(s: seq<byte>)
    | PDouble(raw: seq<byte>)
    | PList(items: seq<Plain>)
    | PMap(entries: seq<(Plain, Plain)>)
    | PDict(dict: map<int, Plain>)

  function SignedByte(b: byte): int {
    if b < 128 then b else b - 256
  }

  function Compact(t: Tag, s: seq<byte>): Read<Plain>
    decreases |s|, 1, 0
  {
    if IsBool(t) then Got(PBool(t == T_TRUE), 0)
    else if t == T_BYTE then
      match ReadByte(s)
      case Got(b, used) => Got(PInt(SignedByte(b)), used)
      case Fail(e) => Fail(e)
    else if IsInt(t) then
      match ReadZigzag(s)
      case Got(n, used) => Got(PInt(n), used)
      case Fail(e) => Fail(e)
    else if t == T_DOUBLE then
      if |s| < 8 then Fail(WrongValue) else Got(PDouble(s[..8]), 8)
    else if t == T_BINARY then
      match ReadVarint(s)
      case Got(n, used) => Got(PBytes(Take(Drop(s, used), n)), used + n)
      case Fail(e) => Fail(e)
    else if IsList(t) then
      match ReadListHead(s)
      case Fail(e) => Fail(e)
      case Got(head, used) =>
        match if IsBool(head.et) then CompactBools(head.count, Drop(s, used)) else CompactItems(head.et, head.count, Drop(s, used))
        case Got(items, more) => Got(PList(items), used + more)
        case Fail(e) => Fail(e)
    else if t == T_MAP then
      match ReadVarint(s)
      case Fail(e) => Fail(e)
      case Got(n, used) =>
        if n == 0 then Got(PDict(map[]), used)
        else
          match ReadByte(Drop(s, used))
          case Fail(e) => Fail(e)
          case Got(kv, one) =>
            match CompactEntries(kv / 16, kv % 16, n, Drop(s, used + one))
            case Got(entries, more) => Got(PMap(entries), used + one + more)
            case Fail(e) => Fail(e)
    else if t == T_STRUCT then
      match CompactFields(map[], 0, s)
      case Got(dict, used) => Got(PDict(dict), used)
      case Fail(e) => Fail(e)
    else Fail(UnsupportedType)
  }

  function CompactBools(count: nat, s: seq<byte>): Read<seq<Plain>>
    decreases count
  {
    if count == 0 then Got([], 0)
    else
      match ReadByte(s)
      case Fail(e) => Fail(e)
      case Got(b, used) =>
        match CompactBools(count - 1, Drop(s, used))
        case Got(rest, more) => Got([PBool(b == 1)] + rest, used + more)
        case Fail(e) => Fail(e)
  }

  function CompactItems(et: Tag, count: nat, s: seq<byte>): Read<seq<Plain>>
    decreases |s|, 2, count
  {
    if count == 0 then Got([], 0)
    else
      match Compact(et, s)
      case Fail(e) => Fail(e)
      case Got(v, used) =>
        match CompactItems(et, count - 1, Drop(s, used))
        case Got(rest, more) => Got([v] + rest, used + more)
        case Fail(e) => Fail(e)
  }

  function CompactEntries(kt: Tag, vt: Tag, count: nat, s: seq<byte>): Read<seq<(Plain, Plain)>>
    decreases |s|, 2, count
  {
    if count == 0 then Got([], 0)
    else
      match Compact(kt, s)
      case Fail(e) => Fail(e)
      case Got(k, used) =>
        match Compact(vt, Drop(s, used))
        case Fail(e) => Fail(e)
        case Got(v, more) =>
          match CompactEntries(kt, vt, count - 1, Drop(s, used + more))
          case Got(rest, last) => Got([(k, v)] + rest, used + more + last)
          case Fail(e) => Fail(e)
  }

  /** A later field with the same id replaces an earlier one. */
  function CompactFields(out: map<int, Plain>, last: int, s: seq<byte>): Read<map<int, Plain>>
    decreases |s|, 0, 0
  {
    if s == [] then Fail(IndexError)
    else if s[0] == 0 then Got(out, 1)
    else
      match ReadFieldHead(last, s)
      case Fail(e) => Fail(e)
      case Got(head, used) =>
        match Compact(head.ft, Drop(s, used))
        case Fail(e) => Fail(e)
        case Got(v, more) =>
          match CompactFields(out[head.fid := v], head.fid, Drop(s, used + more))
          case Got(dict, rest) => Got(dict, used + more + rest)
          case Fail(e) => Fail(e)
  }

  // ---- The footer walker's skip: only the position moves ----

  function Skip(t: Tag, s: seq<byte>): Read<()>
    decreases |s|, 1, 0
  {
    if IsBool(t) then Got((), 0)
    else if t == T_BYTE then Got((), 1)
    else if IsInt(t) then
      match ReadVarint(s)
      case Got(_, used) => Got((), used)
      case Fail(e) => Fail(e)
    else if t == T_DOUBLE then Got((), 8)
    else if t == T_BINARY then
      match ReadVarint(s)
      case Got(n, used) => Got((), used + n)
      case Fail(e) => Fail(e)
    else if IsList(t) then
      match ReadListHead(s)
      case Fail(e) => Fail(e)
      case Got(head, used) => Moved(used, SkipItems(head.et, head.count, Drop(s, used)))
    else if t == T_MAP then
      match ReadVarint(s)
      case Fail(e) => Fail(e)
      case Got(n, used) =>
        if n == 0 then Got((), used)
        else
          match ReadByte(Drop(s, used))
          case Fail(e) => Fail(e)
          case Got(kv, one) => Moved(used + one, SkipEntries(kv / 16, kv % 16, n, Drop(s, used + one)))
    else if t == T_STRUCT then SkipFields(0, s)
    else Fail(UnsupportedType)
  }

  function Moved(used: nat, r: Read<()>): Read<()> {
    match r
    case Got(_, more) => Got((), used + more)
    case Fail(e) => Fail(e)
  }

  /** Every element is skipped by its type, booleans included: those use no bytes here. */
  function SkipItems(et: Tag, count: nat, s: seq<byte>): Read<()>
    decreases |s|, 2, count
  {
    if count == 0 then Got((), 0)
    else
      match Skip(et, s)
      case Fail(e) => Fail(e)
      case Got(_, used) => Moved(used, SkipItems(et, count - 1, Drop(s, used)))
  }

  function SkipEntries(kt: Tag, vt: Tag, count: nat, s: seq<byte>): Read<()>
    decreases |s|, 2, count
  {
    if count == 0 then Got((), 0)
    else
      match Skip(kt, s)
      case Fail(e) => Fail(e)
      case Got(_, used) =>
        match Skip(vt, Drop(s, used))
        case Fail(e) => Fail(e)
        case Got(_, more) => Moved(used + more, SkipEntries(kt, vt, count - 1, Drop(s, used + more)))
  }

  function SkipFields(last: int, s: seq<byte>): Read<()>
    decreases |s|, 0, 0
  {
    if s == [] then Fail(IndexError)
    else if s[0] == 0 then Got((), 1)
    else
      match ReadFieldHead(last, s)
      case Fail(e) => Fail(e)
      case Got(head, used) =>
        match Skip(head.ft, Drop(s, used))
        case Fail(e) => Fail(e)
        case Got(_, more) => Moved(used + more, SkipFields(head.fid, Drop(s, used + more)))
  }

  // ---- The corruption tool's scan: booleans, integers and structs, no lists ----

  datatype Scanned = SBool(b: bool) | SInt(n: int) | SStruct(dict: map<int, Scanned>)

  function Scan(out: map<int, Scanned>, last: int, s: seq<byte>): Read<map<int, Scanned>>
    decreases |s|, 0
  {
    if s == [] then Fail(IndexError)
    else if s[0] == 0 then Got(out, 1)
    else
      match ReadFieldHead(last, s)
      case Fail(e) => Fail(e)
      case Got(head, used) =>
        match ScanValue(head.ft, Drop(s, used))
        case Fail(e) => Fail(e)
        case Got(v, more) =>
          match Scan(Recorded(out, head.fid, v), head.fid, Drop(s, used + more))
          case Got(dict, rest) => Got(dict, used + more + rest)
          case Fail(e) => Fail(e)
  }

  function Recorded(out: map<int, Scanned>, fid: int, v: Option<Scanned>): map<int, Scanned> {
    match v
    case Some(x) => out[fid := x]
    case None => out
  }

  function ScanValue(t: Tag, s: seq<byte>): Read<Option<Scanned>>
    decreases |s|, 1
  {
    if IsBool(t) then Got(Some(SBool(t == T_TRUE)), 0)
    else if IsInt(t) then
      match ReadVarint(s)
      case Got(n, used) => Got(Some(SInt(Unzigzag(n))), used)
      case Fail(e) => Fail(e)
    else if t == T_STRUCT then
      match Scan(map[], 0, s)
      case Got(dict, used) => Got(Some(SStruct(dict)), used)
      case Fail(e) => Fail(e)
    else if t == T_BINARY then
      match ReadVarint(s)
      case Got(n, used) => Got(None, used + n)
      case Fail(e) => Fail(e)
    else if t == T_BYTE then Got(None, 1)
    else if t == T_DOUBLE then Got(None, 8)
    else Fail(UnsupportedType)
  }

  // ---- What each makes of a value the first reader has read ----

  function ToPlain(t: Tag, v: Value): Plain
    decreases v, 0
  {
    match v
    case Bool(b) => PBool(b)
    case Int(n) => if t == T_BYTE && 0 <= n < 256 then PInt(SignedByte(n)) else PInt(n)
    case Bytes(s) => if t == T_DOUBLE then PDouble(s) else PBytes(s)
    case List(et, items) => PList(ItemsToPlain(et, items))
    case Struct(fields) => PDict(FieldsToDict(map[], fields))
  }

  function ItemsToPlain(et: Tag, items: seq<Value>): seq<Plain>
    decreases items, 1
  {
    if items == [] then [] else [ToPlain(et, items[0])] + ItemsToPlain(et, items[1..])
  }

  function FieldToPlain(f: Field): Plain
    decreases f, 0
  {
    ToPlain(f.ft, f.val)
  }

  function FieldsToDict(out: map<int, Plain>, fields: seq<Field>): map<int, Plain>
    decreases fields, 1
  {
    if fields == [] then out
    else FieldsToDict(out[fields[0].fid := FieldToPlain(fields[0])], fields[1..])
  }

  function ToScanned(v: Value): Option<Scanned>
    decreases v, 0
  {
    match v
    case Bool(b) => Some(SBool(b))
    case Int(n) => Some(SInt(n))
    case Struct(fields) => Some(SStruct(FieldsToScan(map[], fields)))
    case _ => None
  }

  function FieldToScanned(f: Field): Option<Scanned>
    decreases f, 0
  {
    if f.ft == T_BYTE then None else ToScanned(f.val)
  }

  function FieldsToScan(out: map<int, Scanned>, fields: seq<Field>): map<int, Scanned>
    decreases fields, 1
  {
    if fields == [] then out
    else FieldsToScan(Recorded(out, fields[0].fid, FieldToScanned(fields[0])), fields[1..])
  }

  /** No list, at any depth, has boolean elements and is not empty. */
  predicate NoBoolLists(v: Value)
    decreases v
  {
    match v
    case List(et, items) => (IsBool(et) ==> items == []) && forall x :: x in items ==> NoBoolLists(x)
    case Struct(fields) => forall f :: f in fields ==> NoBoolLists(f.val)
    case _ => true
  }

  predicate NoLists(v: Value)
    decreases v
  {
    match v
    case List(_, _) => false
    case Struct(fields) => forall f :: f in fields ==> NoLists(f.val)
    case _ => true
  }

  // ---- Agreement ----

  lemma FirstAndRest<T(!new)>(x: T, rest: seq<T>, p: T -> bool)
    requires forall y :: y in [x] + rest ==> p(y)
    ensures p(x) && forall y :: y in rest ==> p(y)
  {
    assert x in [x] + rest;
    forall y | y in rest ensures p(y) { assert y in [x] + rest; }
  }

  predicate Complete<T>(s: seq<byte>, r: Read<T>) {
    r.Got? && r.used <= |s|
  }

  /** Wherever the first reader finds a complete value, the checker's reader finds the same one and stops there. */
  lemma {:induction false} CompactAgrees(t: Tag, s: seq<byte>)
    requires Complete(s, ReadValue(t, s))
    ensures Compact(t, s) == Got(ToPlain(t, ReadValue(t, s).v), ReadValue(t, s).used)
    decreases |s|, 1, 0
  {
    hide ReadVarint, ReadZigzag, ReadListHead, ReadItems, ReadBools, ReadFields, CompactItems, CompactBools, CompactFields;
    hide ItemsToPlain, FieldsToDict;
    if IsList(t) {
      var head := ReadListHead(s);
      var body := Drop(s, head.used);
      if IsBool(head.v.et) { CompactBoolsAgrees(head.v.et, head.v.count, body); } else { CompactItemsAgrees(head.v.et, head.v.count, body); }
    } else if t == T_STRUCT {
      CompactFieldsAgrees(map[], 0, s);
    }
  }

  lemma {:induction false} CompactBoolsAgrees(et: Tag, count: nat, s: seq<byte>)
    requires IsBool(et) && ReadBools(count, s).Got?
    ensures CompactBools(count, s) == Got(ItemsToPlain(et, ReadBools(count, s).v), ReadBools(count, s).used)
  {
    if count > 0 {
      CompactBoolsAgrees(et, count - 1, Drop(s, 1));
      Slices.Uncons(Bool(s[0] == 1), ReadBools(count - 1, Drop(s, 1)).v);
    }
  }

  lemma {:induction false} CompactItemsAgrees(et: Tag, count: nat, s: seq<byte>)
    requires Complete(s, ReadItems(et, count, s))
    ensures CompactItems(et, count, s) == Got(ItemsToPlain(et, ReadItems(et, count, s).v), ReadItems(et, count, s).used)
    decreases |s|, 2, count
  {
    hide ReadValue, Compact, ToPlain;
    if count > 0 {
      CompactAgrees(et, s);
      var one := ReadValue(et, s);
      CompactItemsAgrees(et, count - 1, Drop(s, one.used));
      Slices.Uncons(one.v, ReadItems(et, count - 1, Drop(s, one.used)).v);
    }
  }

  lemma {:induction false} CompactFieldsAgrees(out: map<int, Plain>, last: int, s: seq<byte>)
    requires Complete(s, ReadFields(last, s))
    ensures CompactFields(out, last, s) == Got(FieldsToDict(out, ReadFields(last, s).v), ReadFields(last, s).used)
    decreases |s|, 0, 0
  {
    hide ReadFields, ReadValue, Compact, CompactFields, ToPlain, ReadFieldHead, FieldsToDict;
    if s == [] || s[0] == 0 {
      NoFieldsAnywhere(out, map[], last, s);
    } else {
      var head, val, more := FieldParts(last, s);
      var f := Field(head.v.fid, head.v.ft, val.v);
      CompactAgrees(head.v.ft, Drop(s, head.used));
      CompactFieldsAgrees(out[f.fid := FieldToPlain(f)], f.fid, Drop(s, head.used + val.used));
      CompactFieldsUnfold(out, last, s, head, val);
      DictUnfold(out, f, more.v);
    }
  }

  /** One field of those read from `s`, and the rest. */
  lemma FieldParts(last: int, s: seq<byte>) returns (head: Read<FieldHead>, val: Read<Value>, more: Read<seq<Field>>)
    requires s != [] && s[0] != 0 && ReadFields(last, s).Got?
    ensures head == ReadFieldHead(last, s) && head.Got? && 1 <= head.used <= |s|
    ensures val == ReadValue(head.v.ft, Drop(s, head.used)) && val.Got?
    ensures more == ReadFields(head.v.fid, Drop(s, head.used + val.used)) && more.Got?
    ensures ReadFields(last, s) == Got([Field(head.v.fid, head.v.ft, val.v)] + more.v, head.used + val.used + more.used)
    ensures |Drop(s, head.used)| < |s| && |Drop(s, head.used + val.used)| < |s|
    ensures Complete(s, ReadFields(last, s)) ==>
            Complete(Drop(s, head.used), val) && Complete(Drop(s, head.used + val.used), more)
  {
    hide ReadValue, ReadFieldHead;
    HeadInside(last, s);
    head := ReadFieldHead(last, s);
    val := ReadValue(head.v.ft, Drop(s, head.used));
    more := ReadFields(head.v.fid, Drop(s, head.used + val.used));
  }

  lemma NoFieldsAnywhere(out: map<int, Plain>, scanned: map<int, Scanned>, last: int, s: seq<byte>)
    requires s == [] || s[0] == 0
    requires ReadFields(last, s).Got?
    ensures ReadFields(last, s) == Got([], 1) && SkipFields(last, s) == Got((), 1)
    ensures CompactFields(out, last, s) == Got(FieldsToDict(out, []), 1)
    ensures Scan(scanned, last, s) == Got(FieldsToScan(scanned, []), 1)
  {
  }

  lemma CompactFieldsUnfold(out: map<int, Plain>, last: int, s: seq<byte>, head: Read<FieldHead>, val: Read<Value>)
    requires s != [] && s[0] != 0 && head == ReadFieldHead(last, s) && head.Got? && val.Got?
    requires Compact(head.v.ft, Drop(s, head.used)) == Got(ToPlain(head.v.ft, val.v), val.used)
    ensures CompactFields(out, last, s) ==
            match CompactFields(out[head.v.fid := ToPlain(head.v.ft, val.v)], head.v.fid, Drop(s, head.used + val.used))
            case Got(dict, rest) => Got(dict, head.used + val.used + rest)
            case Fail(e) => Fail(e)
  {
    hide Compact, ReadFieldHead, ToPlain;
  }

  lemma SkipFieldsUnfold(last: int, s: seq<byte>, head: Read<FieldHead>, val: Read<Value>)
    requires s != [] && s[0] != 0 && head == ReadFieldHead(last, s) && head.Got? && val.Got?
    requires Skip(head.v.ft, Drop(s, head.used)) == Got((), val.used)
    ensures SkipFields(last, s) == Moved(head.used + val.used, SkipFields(head.v.fid, Drop(s, head.used + val.used)))
  {
    hide Skip, ReadFieldHead;
  }

  lemma ScanUnfold(out: map<int, Scanned>, last: int, s: seq<byte>, head: Read<FieldHead>, v: Option<Scanned>, used: nat)
    requires s != [] && s[0] != 0 && head == ReadFieldHead(last, s) && head.Got?
    requires ScanValue(head.v.ft, Drop(s, head.used)) == Got(v, used)
    ensures Scan(out, last, s) ==
            match Scan(Recorded(out, head.v.fid, v), head.v.fid, Drop(s, head.used + used))
            case Got(dict, rest) => Got(dict, head.used + used + rest)
            case Fail(e) => Fail(e)
  {
    hide ScanValue, ReadFieldHead, Recorded;
  }

  lemma DictUnfold(out: map<int, Plain>, f: Field, more: seq<Field>)
    ensures FieldsToDict(out, [f] + more) == FieldsToDict(out[f.fid := FieldToPlain(f)], more)
  {
    hide ToPlain;
    Slices.Uncons(f, more);
  }

  lemma ScannedUnfold(out: map<int, Scanned>, f: Field, more: seq<Field>)
    ensures FieldsToScan(out, [f] + more) == FieldsToScan(Recorded(out, f.fid, FieldToScanned(f)), more)
  {
    hide ToScanned, Recorded;
    Slices.Uncons(f, more);
  }

  lemma HeadInside(last: int, s: seq<byte>)
    requires s != [] && s[0] != 0
    ensures ReadFieldHead(last, s).Got? ==> 1 <= ReadFieldHead(last, s).used <= |s|
  {
  }

  /** Skipping stops where reading stops, for values without lists of booleans. */
  lemma {:induction false} SkipAgrees(t: Tag, s: seq<byte>)
    requires ReadValue(t, s).Got? && NoBoolLists(ReadValue(t, s).v)
    ensures Skip(t, s) == Got((), ReadValue(t, s).used)
    decreases |s|, 1, 0
  {
    hide ReadVarint, ReadListHead, ReadItems, ReadBools, ReadFields, SkipItems, SkipFields;
    if IsList(t) {
      var head := ReadListHead(s);
      var body := Drop(s, head.used);
      if IsBool(head.v.et) {
        BoolCount(head.v.count, body);
        NoItemsToSkip(head.v.et, body);
      } else {
        SkipItemsAgrees(head.v.et, head.v.count, body);
      }
    } else if t == T_STRUCT {
      SkipFieldsAgrees(0, s);
    }
  }

  lemma {:induction false} BoolCount(count: nat, s: seq<byte>)
    requires ReadBools(count, s).Got?
    ensures |ReadBools(count, s).v| == count && ReadBools(count, s).used == count
  {
    if count > 0 { BoolCount(count - 1, Drop(s, 1)); }
  }

  lemma NoItemsToSkip(et: Tag, s: seq<byte>)
    ensures SkipItems(et, 0, s) == Got((), 0)
  {
  }

  lemma {:induction false} SkipItemsAgrees(et: Tag, count: nat, s: seq<byte>)
    requires var r := ReadItems(et, count, s); r.Got? && forall x :: x in r.v ==> NoBoolLists(x)
    ensures SkipItems(et, count, s) == Got((), ReadItems(et, count, s).used)
    decreases |s|, 2, count
  {
    hide ReadValue, Skip, NoBoolLists;
    if count > 0 {
      var one := ReadValue(et, s);
      var more := ReadItems(et, count - 1, Drop(s, one.used));
      assert ReadItems(et, count, s) == Got([one.v] + more.v, one.used + more.used);
      hide ReadItems;
      FirstAndRest(one.v, more.v, NoBoolLists);
      SkipAgrees(et, s);
      SkipItemsAgrees(et, count - 1, Drop(s, one.used));
    }
  }

  lemma {:induction false} SkipFieldsAgrees(last: int, s: seq<byte>)
    requires var r := ReadFields(last, s); r.Got? && forall f :: f in r.v ==> NoBoolLists(f.val)
    ensures SkipFields(last, s) == Got((), ReadFields(last, s).used)
    decreases |s|, 0, 0
  {
    hide ReadFields, ReadValue, Skip, SkipFields, NoBoolLists, ReadFieldHead;
    if s == [] || s[0] == 0 {
      NoFieldsAnywhere(map[], map[], last, s);
    } else {
      var head, val, more := FieldParts(last, s);
      var f := Field(head.v.fid, head.v.ft, val.v);
      FirstAndRest(f, more.v, (g: Field) => NoBoolLists(g.val));
      SkipAgrees(head.v.ft, Drop(s, head.used));
      SkipFieldsAgrees(f.fid, Drop(s, head.used + val.used));
      SkipFieldsUnfold(last, s, head, val);
    }
  }

  /** On a list of booleans skip stops short by one byte an element: it agrees exactly when the list is empty. */
  lemma SkipOfBoolList(t: Tag, s: seq<byte>)
    requires IsList(t) && ReadValue(t, s).Got? && IsBool(ReadListHead(s).v.et)
    ensures Skip(t, s) == Got((), ReadListHead(s).used)
    ensures Skip(t, s) == Got((), ReadValue(t, s).used) <==> ReadListHead(s).v.count == 0
  {
    var head := ReadListHead(s);
    BoolCount(head.v.count, Drop(s, head.used));
    SkipBools(head.v.et, head.v.count, Drop(s, head.used));
  }

  lemma {:induction false} SkipBools(et: Tag, count: nat, s: seq<byte>)
    requires IsBool(et)
    ensures SkipItems(et, count, s) == Got((), 0)
  {
    if count > 0 { SkipBools(et, count - 1, s); }
  }

  /** A struct of one field, a list of booleans with these bytes for elements. */
  function ListInStruct(items: seq<byte>): seq<byte>
    requires |items| < 15
  {
    [0x19, 16 * |items| + 1] + (items + [0])
  }

  lemma {:induction false} ReadsBools(count: nat, s: seq<byte>)
    requires count <= |s|
    ensures ReadBools(count, s).Got?
  {
    if count > 0 { ReadsBools(count - 1, Drop(s, 1)); }
  }

  lemma ReadListInStruct(items: seq<byte>)
    requires |items| < 15
    ensures ReadValue(T_STRUCT, ListInStruct(items)).Got?
    ensures ReadValue(T_STRUCT, ListInStruct(items)).used == 3 + |items|
    ensures SkipFields(0, ListInStruct(items)) == Moved(2, SkipFields(1, items + [0]))
  {
    hide ReadFields, ReadValue, Skip, SkipFields;
    var s, rest := ListInStruct(items), items + [0];
    assert Drop(s, 1) == [s[1]] + rest && Drop(s, 2) == rest;
    assert Drop(s, 2 + |items|) == [0];
    BoolListHere(9, Drop(s, 1), |items|);
    StopHere(1);
    StructHere(s);
    FieldHere(s, Got(FieldHead(1, 9), 1), ReadValue(9, Drop(s, 1)));
    SkipFieldsUnfold(0, s, Got(FieldHead(1, 9), 1), Got(Bool(true), 1));
  }

  lemma BoolListHere(t: Tag, s: seq<byte>, count: nat)
    requires IsList(t) && s != [] && s[0] == 16 * count + 1 && count < 15 && count < |s|
    ensures ReadValue(t, s).Got? && ReadValue(t, s).used == 1 + count
    ensures Skip(t, s) == Got((), 1)
  {
    hide ReadBools, ReadItems, ReadFields, ReadVarint, Skip;
    assert ReadListHead(s) == Got(ListHead(count, 1), 1);
    ReadsBools(count, Drop(s, 1));
    BoolCount(count, Drop(s, 1));
    SkipOfBoolList(t, s);
  }

  lemma StructHere(s: seq<byte>)
    ensures ReadFields(0, s).Got? ==> ReadValue(T_STRUCT, s) == Got(Struct(ReadFields(0, s).v), ReadFields(0, s).used)
  {
    hide ReadFields;
  }

  lemma SkipStruct(s: seq<byte>)
    ensures Skip(T_STRUCT, s) == SkipFields(0, s)
  {
    hide SkipFields;
  }

  lemma StopHere(last: int)
    ensures ReadFields(last, [0]) == Got([], 1) && SkipFields(last, [0]) == Got((), 1)
  {
  }

  lemma FieldHere(s: seq<byte>, head: Read<FieldHead>, val: Read<Value>)
    requires s != [] && s[0] != 0 && head == ReadFieldHead(0, s) && head.Got?
    requires val == ReadValue(head.v.ft, Drop(s, head.used)) && val.Got?
    ensures ReadFields(0, s) ==
            match ReadFields(head.v.fid, Drop(s, head.used + val.used))
            case Got(more, rest) => Got([Field(head.v.fid, head.v.ft, val.v)] + more, head.used + val.used + rest)
            case Fail(e) => Fail(e)
  {
    hide ReadValue, ReadFieldHead;
  }

  /** Inside a struct, over a list of one boolean, skip runs past the end; over one of two it takes them for a field and
      stops where reading does. So there no condition on the list alone says when skipping agrees. */
  lemma SkipInsideStruct(a: byte, b: byte)
    requires a == 1 && b == 2
    ensures ReadValue(T_STRUCT, ListInStruct([a])).Got? && Skip(T_STRUCT, ListInStruct([a])).Fail?
    ensures ReadValue(T_STRUCT, ListInStruct([a, b])).Got?
    ensures Skip(T_STRUCT, ListInStruct([a, b])) == Got((), ReadValue(T_STRUCT, ListInStruct([a, b])).used)
  {
    hide ListInStruct, ReadValue, ReadFields, Unzigzag, ReadFieldHead;
    ReadListInStruct([a]);
    ReadListInStruct([a, b]);
    SkipStruct(ListInStruct([a]));
    SkipStruct(ListInStruct([a, b]));
    BoolAsField([a] + [0], a, 0);
    BoolAsField([a, b] + [0], a, b);
    StopHere(Unzigzag(b));
    assert Drop([a] + [0], 2) == [] && Drop([a, b] + [0], 2) == [0];
  }

  /** An element taken for a field head without a delta: the next byte is its id, and a boolean uses no more. */
  lemma BoolAsField(s: seq<byte>, a: byte, id: byte)
    requires |s| >= 2 && s[0] == a == 1 && s[1] == id && id < 128
    ensures SkipFields(1, s) == Moved(2, SkipFields(Unzigzag(id), Drop(s, 2)))
  {
    hide SkipFields, Unzigzag;
    assert s[1..][0] == id;
    SkipFieldsUnfold(1, s, Got(FieldHead(Unzigzag(id), 1), 2), Got(Bool(true), 0));
  }

  /** The scan finds a struct without lists where the first reader does, with the same integers, booleans and structs. */
  lemma {:induction false} ScanAgrees(out: map<int, Scanned>, last: int, s: seq<byte>)
    requires var r := ReadFields(last, s); r.Got? && forall f :: f in r.v ==> NoLists(f.val)
    ensures Scan(out, last, s) == Got(FieldsToScan(out, ReadFields(last, s).v), ReadFields(last, s).used)
    decreases |s|, 1
  {
    hide ReadFields, ReadValue, Scan, ScanValue, NoLists, ReadFieldHead, ToScanned, Recorded, FieldsToScan;
    if s == [] || s[0] == 0 {
      NoFieldsAnywhere(map[], out, last, s);
    } else {
      var head, val, more := FieldParts(last, s);
      var f := Field(head.v.fid, head.v.ft, val.v);
      FirstAndRest(f, more.v, (g: Field) => NoLists(g.val));
      ScanValueAgrees(head.v.ft, Drop(s, head.used));
      ScanAgrees(Recorded(out, f.fid, FieldToScanned(f)), f.fid, Drop(s, head.used + val.used));
      ScanUnfold(out, last, s, head, FieldToScanned(f), val.used);
      ScannedUnfold(out, f, more.v);
    }
  }

  lemma {:induction false} ScanValueAgrees(t: Tag, s: seq<byte>)
    requires ReadValue(t, s).Got? && NoLists(ReadValue(t, s).v)
    ensures ScanValue(t, s) == Got(if t == T_BYTE then None else ToScanned(ReadValue(t, s).v), ReadValue(t, s).used)
    decreases |s|, 2
  {
    hide ReadVarint, ReadFields, Scan, FieldsToScan;
    if t == T_STRUCT { ScanAgrees(map[], 0, s); }
  }

  // ---- Looking a field up ----

  predicate DistinctIds(fields: seq<Field>) {
    forall i, j :: 0 <= i < j < |fields| ==> fields[i].fid != fields[j].fid
  }

  /** The first reader's callers take the first field with an id, the dictionary keeps the last: with distinct ids both
      see the same field. */
  lemma {:induction false} LookupsAgree(out: map<int, Plain>, fields: seq<Field>, fid: int)
    requires DistinctIds(fields)
    decreases |fields|
    ensures var dict := FieldsToDict(out, fields);
            match FindField(fields, fid)
            case Some(f) => fid in dict && dict[fid] == ToPlain(f.ft, f.val)
            case None => (fid in dict <==> fid in out) && (fid in out ==> dict[fid] == out[fid])
  {
    hide ToPlain;
    if fields != [] {
      var out' := out[fields[0].fid := ToPlain(fields[0].ft, fields[0].val)];
      LookupsAgree(out', fields[1..], fid);
      if fields[0].fid == fid { NoSecondField(fields, fid); }
    }
  }

  lemma {:induction false} NoSecondField(fields: seq<Field>, fid: int)
    requires fields != [] && DistinctIds(fields) && fields[0].fid == fid
    ensures FindField(fields[1..], fid) == None
  {
    FindIsIn(fields[1..], fid);
  }

  lemma {:induction false} FindIsIn(fields: seq<Field>, fid: int)
    ensures FindField(fields, fid).Some? ==> exists i :: 0 <= i < |fields| && fields[i].fid == fid
    ensures FindField(fields, fid).Some? ==> FindField(fields, fid).value in fields && FindField(fields, fid).value.fid == fid
  {
    if fields != [] && fields[0].fid != fid {
      FindIsIn(fields[1..], fid);
      if i :| 0 <= i < |fields[1..]| && fields[1..][i].fid == fid { assert fields[i + 1].fid == fid; }
    }
  }
}
