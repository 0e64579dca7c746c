/** Walkers that pick fields out of a footer and skip the rest. */
module FooterWalk {
  import opened Options
  import opened Thrift
  import opened ThriftGrammar
  import Slices

  /** What a walker does with one field's value: a new state and the bytes used. */
  type Handler<!S> = (S, int, Tag, seq<byte>) -> Read<S>

  /** One struct, field by field, to its stop byte. */
  function Walk<S>(h: Handler<S>, st: S, last: int, s: seq<byte>): Read<S>
    decreases |s|
  {
    if s == [] then Fail(IndexError)
    else if s[0] == 0 then Got(st, 1)
    else
      match ReadFieldHead(last, s)
      case Fail(e) => Fail(e)
      case Got(head, used) =>
        match h(st, head.fid, head.ft, Drop(s, used))
        case Fail(e) => Fail(e)
        case Got(next, more) =>
          match Walk(h, next, head.fid, Drop(s, used + more))
          case Got(end, rest) => Got(end, used + more + rest)
          case Fail(e) => Fail(e)
  }

  /** What the same fields, parsed, do to the state. */
  function Folded<S>(g: (S, Field) -> S, st: S, fields: seq<Field>): S {
    if fields == [] then st else Folded(g, g(st, fields[0]), fields[1..])
  }

  /** `h` on the bytes of a value does what `g` does with the value, and stops where reading stops, if `ok` says so. */
  ghost predicate Handles<S(!new)>(h: Handler<S>, g: (S, Field) -> S, ok: Field -> bool) {
    forall st: S, fid: int, ft: Tag, s: seq<byte> :: HandlesOne(h, g, ok, st, fid, ft, s)
  }

  predicate HandlesOne<S(==)>(h: Handler<S>, g: (S, Field) -> S, ok: Field -> bool, st: S, fid: int, ft: Tag, s: seq<byte>) {
    ReadValue(ft, s).Got? && ok(Field(fid, ft, ReadValue(ft, s).v)) ==>
      h(st, fid, ft, s) == Got(g(st, Field(fid, ft, ReadValue(ft, s).v)), ReadValue(ft, s).used)
  }

  predicate AllOk(ok: Field -> bool, fields: seq<Field>) {
    forall i :: 0 <= i < |fields| ==> ok(fields[i])
  }

  lemma FoldedUnfold<S>(g: (S, Field) -> S, st: S, f: Field, more: seq<Field>)
    ensures Folded(g, st, [f] + more) == Folded(g, g(st, f), more)
  {
    Slices.Uncons(f, more);
  }

  lemma WalkUnfold<S>(h: Handler<S>, st: S, last: int, s: seq<byte>, head: Read<FieldHead>, next: S, used: nat)
    requires s != [] && s[0] != 0 && head == ReadFieldHead(last, s) && head.Got?
    requires h(st, head.v.fid, head.v.ft, Drop(s, head.used)) == Got(next, used)
    ensures Walk(h, st, last, s) ==
            match Walk(h, next, head.v.fid, Drop(s, head.used + used))
            case Got(end, rest) => Got(end, head.used + used + rest)
            case Fail(e) => Fail(e)
  {
    hide ReadFieldHead;
  }

  lemma WalkEnds<S>(h: Handler<S>, st: S, last: int, s: seq<byte>)
    requires (s == [] || s[0] == 0) && ReadFields(last, s).Got?
    ensures ReadFields(last, s) == Got([], 1) && Walk(h, st, last, s) == Got(st, 1)
  {
  }

  /** A walk of a struct is the fold of its parsed fields. */
  lemma {:induction false} WalkAgrees<S(!new)>(h: Handler<S>, g: (S, Field) -> S, ok: Field -> bool, st: S, last: int, s: seq<byte>)
    requires Handles(h, g, ok) && ReadFields(last, s).Got? && AllOk(ok, ReadFields(last, s).v)
    ensures Walk(h, st, last, s) == Got(Folded(g, st, ReadFields(last, s).v), ReadFields(last, s).used)
    decreases |s|
  {
    hide ReadFields, ReadValue, ReadFieldHead, Walk, Folded;
    if s == [] || s[0] == 0 {
      WalkEnds(h, st, last, s);
      FoldedNone(g, st);
    } else {
      var head, val, more := FieldParts(last, s);
      var f := Field(head.v.fid, head.v.ft, val.v);
      var fields := ReadFields(last, s).v;
      assert fields[0] == f && fields[1..] == more.v;
      assert forall i :: 0 <= i < |more.v| ==> more.v[i] == fields[i + 1];
      assert HandlesOne(h, g, ok, st, f.fid, f.ft, Drop(s, head.used));
      WalkUnfold(h, st, last, s, head, g(st, f), val.used);
      WalkAgrees(h, g, ok, g(st, f), f.fid, Drop(s, head.used + val.used));
      FoldedUnfold(g, st, f, more.v);
    }
  }

  lemma FoldedNone<S>(g: (S, Field) -> S, st: S)
    ensures Folded(g, st, []) == st
  {
  }

  // ---- Lists of structs ----

  function WalkItems<T>(one: seq<byte> -> Read<T>, count: nat, s: seq<byte>): Read<seq<T>> {
    if count == 0 then Got([], 0)
    else
      match one(s)
      case Fail(e) => Fail(e)
      case Got(x, used) =>
        match WalkItems(one, count - 1, Drop(s, used))
        case Got(rest, more) => Got([x] + rest, used + more)
        case Fail(e) => Fail(e)
  }

  function WalkList<T>(one: seq<byte> -> Read<T>, s: seq<byte>): Read<seq<T>> {
    match ReadListHead(s)
    case Fail(e) => Fail(e)
    case Got(head, used) =>
      match WalkItems(one, head.count, Drop(s, used))
      case Got(items, more) => Got(items, used + more)
      case Fail(e) => Fail(e)
  }

  function Mapped<T>(p: Value -> T, items: seq<Value>): seq<T> {
    if items == [] then [] else [p(items[0])] + Mapped(p, items[1..])
  }

  ghost predicate Picks<T>(one: seq<byte> -> Read<T>, p: Value -> T, et: Tag, ok: Value -> bool) {
    forall s: seq<byte> :: PicksOne(one, p, et, ok, s)
  }

  predicate PicksOne<T(==)>(one: seq<byte> -> Read<T>, p: Value -> T, et: Tag, ok: Value -> bool, s: seq<byte>) {
    ReadValue(et, s).Got? && ok(ReadValue(et, s).v) ==> one(s) == Got(p(ReadValue(et, s).v), ReadValue(et, s).used)
  }

  lemma {:induction false} ItemsAgree<T>(one: seq<byte> -> Read<T>, p: Value -> T, et: Tag, ok: Value -> bool, count: nat, s: seq<byte>)
    requires Picks(one, p, et, ok) && ReadItems(et, count, s).Got?
    requires forall i :: 0 <= i < |ReadItems(et, count, s).v| ==> ok(ReadItems(et, count, s).v[i])
    ensures WalkItems(one, count, s) == Got(Mapped(p, ReadItems(et, count, s).v), ReadItems(et, count, s).used)
  {
    hide ReadValue;
    if count > 0 {
      var v := ReadValue(et, s);
      var more := ReadItems(et, count - 1, Drop(s, v.used));
      var items := ReadItems(et, count, s).v;
      assert items == [v.v] + more.v;
      assert items[0] == v.v && items[1..] == more.v && forall i :: 0 <= i < |more.v| ==> more.v[i] == items[i + 1];
      assert PicksOne(one, p, et, ok, s);
      ItemsAgree(one, p, et, ok, count - 1, Drop(s, v.used));
    }
  }

  /** A list value of the given element type, each element fine. */
  predicate ListOf(v: Value, et: Tag, ok: Value -> bool) {
    v.List? && v.et == et && forall i :: 0 <= i < |v.items| ==> ok(v.items[i])
  }

  lemma ListAgrees<T>(one: seq<byte> -> Read<T>, p: Value -> T, et: Tag, ok: Value -> bool, ft: Tag, s: seq<byte>)
    requires Picks(one, p, et, ok) && !IsBool(et) && IsList(ft)
    requires ReadValue(ft, s).Got? && ListOf(ReadValue(ft, s).v, et, ok)
    ensures WalkList(one, s) == Got(Mapped(p, ReadValue(ft, s).v.items), ReadValue(ft, s).used)
  {
    hide ReadItems, ReadBools, ReadListHead, WalkItems;
    var head := ReadListHead(s);
    ItemsAgree(one, p, et, ok, head.v.count, Drop(s, head.used));
  }

  // ---- Picking one field and skipping the others ----

  function Skipped<S>(st: S, ft: Tag, s: seq<byte>): Read<S> {
    match Skip(ft, s)
    case Got(_, used) => Got(st, used)
    case Fail(e) => Fail(e)
  }

  /** The field `target` is a struct to walk with `h`. */
  function StructHandler<S>(target: int, h: Handler<S>): Handler<S> {
    (st: S, fid: int, ft: Tag, s: seq<byte>) => if fid != target then Skipped(st, ft, s) else Walk(h, st, 0, s)
  }

  function PickStruct<S>(target: int, g: (S, Field) -> S): (S, Field) -> S {
    (st: S, f: Field) => if f.fid == target && f.val.Struct? then Folded(g, st, f.val.fields) else st
  }

  function StructOk(target: int, ok: Field -> bool): Field -> bool {
    (f: Field) => if f.fid != target then NoBoolLists(f.val) else f.ft == T_STRUCT && f.val.Struct? && AllOk(ok, f.val.fields)
  }

  lemma StructHandlesOne<S(!new)>(target: int, h: Handler<S>, g: (S, Field) -> S, ok: Field -> bool, st: S, fid: int, ft: Tag,
      s: seq<byte>)
    requires Handles(h, g, ok)
    ensures HandlesOne(StructHandler(target, h), PickStruct(target, g), StructOk(target, ok), st, fid, ft, s)
  {
    hide ReadFields, Walk, Skip, Folded, Handles, NoBoolLists;
    if ReadValue(ft, s).Got? && StructOk(target, ok)(Field(fid, ft, ReadValue(ft, s).v)) {
      var f := Field(fid, ft, ReadValue(ft, s).v);
      if fid != target {
        SkipAgrees(ft, s);
        assert StructHandler(target, h)(st, fid, ft, s) == Skipped(st, ft, s);
        assert PickStruct(target, g)(st, f) == st;
      } else {
        WalkAgrees(h, g, ok, st, 0, s);
        assert StructHandler(target, h)(st, fid, ft, s) == Walk(h, st, 0, s);
        assert PickStruct(target, g)(st, f) == Folded(g, st, f.val.fields);
      }
    }
  }

  lemma StructHandles<S(!new)>(target: int, h: Handler<S>, g: (S, Field) -> S, ok: Field -> bool)
    requires Handles(h, g, ok)
    ensures Handles(StructHandler(target, h), PickStruct(target, g), StructOk(target, ok))
  {
    hide Handles, HandlesOne;
    forall st: S, fid: int, ft: Tag, s: seq<byte>
      ensures HandlesOne(StructHandler(target, h), PickStruct(target, g), StructOk(target, ok), st, fid, ft, s)
    {
      StructHandlesOne(target, h, g, ok, st, fid, ft, s);
    }
    HandlesAll(StructHandler(target, h), PickStruct(target, g), StructOk(target, ok));
  }

  lemma HandlesAll<S(!new)>(h: Handler<S>, g: (S, Field) -> S, ok: Field -> bool)
    requires forall st: S, fid: int, ft: Tag, s: seq<byte> :: HandlesOne(h, g, ok, st, fid, ft, s)
    ensures Handles(h, g, ok)
  {
  }

  /** The field `target` is a list of structs, each read by `one`; what it gives is added to the state. */
  function ListHandler<T>(target: int, one: seq<byte> -> Read<T>): Handler<seq<T>> {
    (st: seq<T>, fid: int, ft: Tag, s: seq<byte>) =>
      if fid != target then Skipped(st, ft, s)
      else
        match WalkList(one, s)
        case Got(items, used) => Got(st + items, used)
        case Fail(e) => Fail(e)
  }

  function PickList<T>(target: int, p: Value -> T): (seq<T>, Field) -> seq<T> {
    (st: seq<T>, f: Field) => if f.fid == target && f.val.List? then st + Mapped(p, f.val.items) else st
  }

  function ListOk(target: int, ok: Value -> bool): Field -> bool {
    (f: Field) => if f.fid != target then NoBoolLists(f.val) else IsList(f.ft) && ListOf(f.val, T_STRUCT, ok)
  }

  lemma ListHandlesOne<T(!new)>(target: int, one: seq<byte> -> Read<T>, p: Value -> T, ok: Value -> bool, st: seq<T>, fid: int,
      ft: Tag, s: seq<byte>)
    requires Picks(one, p, T_STRUCT, ok)
    ensures HandlesOne(ListHandler(target, one), PickList(target, p), ListOk(target, ok), st, fid, ft, s)
  {
    hide ReadValue, WalkList, Skip, Mapped, NoBoolLists, Picks, ListOf;
    if ReadValue(ft, s).Got? && ListOk(target, ok)(Field(fid, ft, ReadValue(ft, s).v)) {
      var f := Field(fid, ft, ReadValue(ft, s).v);
      if fid != target {
        SkipAgrees(ft, s);
        assert ListHandler(target, one)(st, fid, ft, s) == Skipped(st, ft, s);
        assert PickList(target, p)(st, f) == st;
      } else {
        ListAgrees(one, p, T_STRUCT, ok, ft, s);
        IsAList(f.val, ok);
        assert ListHandler(target, one)(st, fid, ft, s) == Got(st + Mapped(p, f.val.items), ReadValue(ft, s).used);
        assert PickList(target, p)(st, f) == st + Mapped(p, f.val.items);
      }
    }
  }

  lemma ListHandles<T(!new)>(target: int, one: seq<byte> -> Read<T>, p: Value -> T, ok: Value -> bool)
    requires Picks(one, p, T_STRUCT, ok)
    ensures Handles(ListHandler(target, one), PickList(target, p), ListOk(target, ok))
  {
    hide Handles, HandlesOne, Picks;
    forall st: seq<T>, fid: int, ft: Tag, s: seq<byte>
      ensures HandlesOne(ListHandler(target, one), PickList(target, p), ListOk(target, ok), st, fid, ft, s)
    {
      ListHandlesOne(target, one, p, ok, st, fid, ft, s);
    }
    HandlesAll(ListHandler(target, one), PickList(target, p), ListOk(target, ok));
  }

  lemma IsAList(v: Value, ok: Value -> bool)
    requires ListOf(v, T_STRUCT, ok)
    ensures v.List?
  {
  }

  /** One struct of a list, walked from a blank state. */
  function StructOne<S>(h: Handler<S>, blank: S): seq<byte> -> Read<S> {
    s => Walk(h, blank, 0, s)
  }

  function StructOf<S>(g: (S, Field) -> S, blank: S): Value -> S {
    (v: Value) => if v.Struct? then Folded(g, blank, v.fields) else blank
  }

  function FieldsOk(ok: Field -> bool): Value -> bool {
    (v: Value) => v.Struct? && AllOk(ok, v.fields)
  }

  lemma StructPicks<S(!new)>(h: Handler<S>, g: (S, Field) -> S, ok: Field -> bool, blank: S)
    requires Handles(h, g, ok)
    ensures Picks(StructOne(h, blank), StructOf(g, blank), T_STRUCT, FieldsOk(ok))
  {
    hide ReadFields, Walk, Folded, Handles;
    forall s: seq<byte> ensures PicksOne(StructOne(h, blank), StructOf(g, blank), T_STRUCT, FieldsOk(ok), s) {
      if ReadValue(T_STRUCT, s).Got? && FieldsOk(ok)(ReadValue(T_STRUCT, s).v) { WalkAgrees(h, g, ok, blank, 0, s); }
    }
  }

  // ---- Row groups, columns and their metadata ----

  /** One column chunk: its metadata is field 3. */
  function Column<S>(meta: Handler<S>, blank: S): seq<byte> -> Read<S> {
    StructOne(StructHandler(3, meta), blank)
  }

  /** One row group: its column chunks are field 1. */
  function RowGroup<S>(meta: Handler<S>, blank: S): seq<byte> -> Read<seq<S>> {
    StructOne(ListHandler(1, Column(meta, blank)), [])
  }

  /** The whole footer: its row groups are field 4. */
  function WalkFooter<S>(meta: Handler<S>, blank: S, s: seq<byte>): Read<seq<seq<S>>> {
    Walk(ListHandler(4, RowGroup(meta, blank)), [], 0, s)
  }

  function ColumnOf<S>(g: (S, Field) -> S, blank: S): Value -> S {
    StructOf(PickStruct(3, g), blank)
  }

  function RowGroupOf<S>(g: (S, Field) -> S, blank: S): Value -> seq<S> {
    StructOf(PickList(1, ColumnOf(g, blank)), [])
  }

  /** What the parsed footer holds, row group by row group and column by column. */
  function InFooter<S>(g: (S, Field) -> S, blank: S, fields: seq<Field>): seq<seq<S>> {
    Folded(PickList(4, RowGroupOf(g, blank)), [], fields)
  }

  /** The footer's fields have the types of the format, and what is skipped has no list of booleans. */
  predicate FooterOk(ok: Field -> bool, fields: seq<Field>) {
    AllOk(ListOk(4, FieldsOk(ListOk(1, FieldsOk(StructOk(3, ok))))), fields)
  }

  lemma FooterAgrees<S(!new)>(meta: Handler<S>, g: (S, Field) -> S, ok: Field -> bool, blank: S, s: seq<byte>)
    requires Handles(meta, g, ok) && ReadFields(0, s).Got? && FooterOk(ok, ReadFields(0, s).v)
    ensures WalkFooter(meta, blank, s) == Got(InFooter(g, blank, ReadFields(0, s).v), ReadFields(0, s).used)
  {
    hide Handles, Picks, Walk, Folded, ReadFields, AllOk, StructHandler, ListHandler, StructOne, PickStruct, PickList, StructOf,
      FieldsOk, StructOk, ListOk;
    StructHandles(3, meta, g, ok);
    StructPicks(StructHandler(3, meta), PickStruct(3, g), StructOk(3, ok), blank);
    ListHandles(1, Column(meta, blank), ColumnOf(g, blank), FieldsOk(StructOk(3, ok)));
    StructPicks(ListHandler(1, Column(meta, blank)), PickList(1, ColumnOf(g, blank)),
      ListOk(1, FieldsOk(StructOk(3, ok))), []);
    ListHandles(4, RowGroup(meta, blank), RowGroupOf(g, blank), FieldsOk(ListOk(1, FieldsOk(StructOk(3, ok)))));
    WalkAgrees(ListHandler(4, RowGroup(meta, blank)), PickList(4, RowGroupOf(g, blank)),
      ListOk(4, FieldsOk(ListOk(1, FieldsOk(StructOk(3, ok))))), [], 0, s);
  }

  // ---- The two walkers ----

  /** Which statistics a column's metadata has, and what it says of their exactness. */
  datatype Stats = Stats(hasMin: bool, hasMax: bool, minExact: Option<bool>, maxExact: Option<bool>)

  const NO_STATS := Stats(false, false, None, None)

  /** A field of the statistics: the exactness flags live in the type alone. */
  function StatsField(st: Stats, fid: int, ft: Tag, s: seq<byte>): Read<Stats> {
    if fid == 7 then Got(st.(maxExact := Some(ft == T_TRUE)), 0)
    else if fid == 8 then Got(st.(minExact := Some(ft == T_TRUE)), 0)
    else if fid == 5 then Skipped(st.(hasMax := true), ft, s)
    else if fid == 6 then Skipped(st.(hasMin := true), ft, s)
    else Skipped(st, ft, s)
  }

  function StatsOf(st: Stats, f: Field): Stats {
    if f.fid == 7 then st.(maxExact := Some(f.val == Bool(true)))
    else if f.fid == 8 then st.(minExact := Some(f.val == Bool(true)))
    else if f.fid == 5 then st.(hasMax := true)
    else if f.fid == 6 then st.(hasMin := true)
    else st
  }

  predicate StatsOk(f: Field) {
    NoBoolLists(f.val) && (f.fid == 7 || f.fid == 8 ==> IsBool(f.ft))
  }

  lemma StatsHandles()
    ensures Handles(StatsField, StatsOf, StatsOk)
  {
    hide ReadFields, ReadItems, ReadBools, ReadVarint, ReadListHead, ReadZigzag, Skip, NoBoolLists;
    forall st: Stats, fid: int, ft: Tag, s: seq<byte> ensures HandlesOne(StatsField, StatsOf, StatsOk, st, fid, ft, s) {
      if ReadValue(ft, s).Got? && StatsOk(Field(fid, ft, ReadValue(ft, s).v)) { SkipAgrees(ft, s); }
    }
    HandlesAll(StatsField, StatsOf, StatsOk);
  }

  /** The statistics walker: per row group and column, from the metadata's field 12. */
  function FooterStats(s: seq<byte>): Read<seq<seq<Stats>>> {
    WalkFooter(StructHandler(12, StatsField), NO_STATS, s)
  }

  /** It gives what the parsed footer holds. */
  lemma FooterStatsAgree(s: seq<byte>)
    requires ReadFields(0, s).Got? && FooterOk(StructOk(12, StatsOk), ReadFields(0, s).v)
    ensures FooterStats(s) == Got(InFooter(PickStruct(12, StatsOf), NO_STATS, ReadFields(0, s).v), ReadFields(0, s).used)
  {
    hide Handles, WalkFooter, InFooter, FooterOk, StructHandler, PickStruct, StructOk;
    StatsHandles();
    StructHandles(12, StatsField, StatsOf, StatsOk);
    FooterAgrees(StructHandler(12, StatsField), PickStruct(12, StatsOf), StructOk(12, StatsOk), NO_STATS, s);
  }

  /** What the filter walker keeps of a column: its physical type's number, its path, and where its filter is. */
  datatype Filter = Filter(kind: Option<int>, path: Option<seq<seq<byte>>>, offset: Option<int>, length: Option<int>)

  const NO_FILTER := Filter(None, None, None, None)

  function ReadName(s: seq<byte>): Read<seq<byte>> {
    match ReadVarint(s)
    case Got(n, used) => Got(Take(Drop(s, used), n), used + n)
    case Fail(e) => Fail(e)
  }

  function FilterField(st: Filter, fid: int, ft: Tag, s: seq<byte>): Read<Filter> {
    if fid == 1 || fid == 14 || fid == 15 then
      match ReadZigzag(s)
      case Fail(e) => Fail(e)
      case Got(n, used) =>
        Got(if fid == 1 then st.(kind := Some(n)) else if fid == 14 then st.(offset := Some(n)) else st.(length := Some(n)), used)
    else if fid == 3 then
      match WalkList(ReadName, s)
      case Fail(e) => Fail(e)
      case Got(names, used) => Got(st.(path := Some(names)), used)
    else Skipped(st, ft, s)
  }

  function NameOf(v: Value): seq<byte> {
    if v.Bytes? then v.s else []
  }

  function FilterOf(st: Filter, f: Field): Filter {
    if f.fid == 1 && f.val.Int? then st.(kind := Some(f.val.n))
    else if f.fid == 14 && f.val.Int? then st.(offset := Some(f.val.n))
    else if f.fid == 15 && f.val.Int? then st.(length := Some(f.val.n))
    else if f.fid == 3 && f.val.List? then st.(path := Some(Mapped(NameOf, f.val.items)))
    else st
  }

  predicate IsName(v: Value) { v.Bytes? }

  predicate FilterOk(f: Field) {
    if f.fid == 1 || f.fid == 14 || f.fid == 15 then IsInt(f.ft) && f.val.Int?
    else if f.fid == 3 then IsList(f.ft) && ListOf(f.val, T_BINARY, IsName)
    else NoBoolLists(f.val)
  }

  lemma NamesPicked()
    ensures Picks(ReadName, NameOf, T_BINARY, IsName)
  {
    forall s: seq<byte> ensures PicksOne(ReadName, NameOf, T_BINARY, IsName, s) {}
  }

  lemma FilterHandlesOne(st: Filter, fid: int, ft: Tag, s: seq<byte>)
    ensures HandlesOne(FilterField, FilterOf, FilterOk, st, fid, ft, s)
  {
    hide ReadFields, ReadItems, ReadBools, ReadVarint, ReadListHead, ReadZigzag, Skip, NoBoolLists, WalkList, Mapped, Picks;
    if ReadValue(ft, s).Got? && FilterOk(Field(fid, ft, ReadValue(ft, s).v)) {
      var f := Field(fid, ft, ReadValue(ft, s).v);
      if fid == 1 || fid == 14 || fid == 15 {
      } else if fid == 3 {
        NamesPicked();
        ListAgrees(ReadName, NameOf, T_BINARY, IsName, ft, s);
      } else {
        SkipAgrees(ft, s);
      }
    }
  }

  lemma FilterHandles()
    ensures Handles(FilterField, FilterOf, FilterOk)
  {
    hide HandlesOne;
    forall st: Filter, fid: int, ft: Tag, s: seq<byte> ensures HandlesOne(FilterField, FilterOf, FilterOk, st, fid, ft, s) {
      FilterHandlesOne(st, fid, ft, s);
    }
    HandlesAll(FilterField, FilterOf, FilterOk);
  }

  /** The Bloom filter walker: per row group and column. */
  function FooterFilters(s: seq<byte>): Read<seq<seq<Filter>>> {
    WalkFooter(FilterField, NO_FILTER, s)
  }

  /** It gives what the parsed footer holds. */
  lemma FooterFiltersAgree(s: seq<byte>)
    requires ReadFields(0, s).Got? && FooterOk(FilterOk, ReadFields(0, s).v)
    ensures FooterFilters(s) == Got(InFooter(FilterOf, NO_FILTER, ReadFields(0, s).v), ReadFields(0, s).used)
  {
    hide Handles, WalkFooter, InFooter, FooterOk;
    FilterHandles();
    FooterAgrees(FilterField, FilterOf, FilterOk, NO_FILTER, s);
  }
}
