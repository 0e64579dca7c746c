/** Moving every page under a new header, offsets included. */
module PageRelocation {
  import opened Options
  import opened Bits
  import opened Thrift
  import RT = ThriftRoundTrip
  import TI = ThriftImage
  import Slices
  import StableSort

  // ---- Pages ----

  datatype Page = Page(header: seq<Field>, headLen: nat, body: seq<byte>)

  function Size(p: Page): nat {
    p.headLen + |p.body|
  }

  /** The first field with this id, when it holds an integer. */
  function IntAt(fields: seq<Field>, fid: int): Option<int> {
    match Get(fields, fid)
    case Some(Int(n)) => Some(n)
    case _ => None
  }

  lemma FieldsUseTheStop(last: int, s: seq<byte>)
    ensures ReadFields(last, s).Got? ==> ReadFields(last, s).used >= 1
  {
  }

  /** The page at the start of `s`: a supported header, then the compressed size it gives (field 3). */
  function PageAt(s: seq<byte>): (r: Option<Page>)
    ensures r.Some? ==> 1 <= Size(r.value) <= |s|
  {
    FieldsUseTheStop(0, s);
    match ReadFields(0, s)
    case Fail(_) => None
    case Got(h, used) =>
      match IntAt(h, 3)
      case None => None
      case Some(n) =>
        if RT.Supported(T_STRUCT, Struct(h)) && 0 <= n && used + n <= |s| then Some(Page(h, used, s[used..used + n])) else None
  }

  /** The pages that fill `s` exactly. */
  function Pages(s: seq<byte>): Option<seq<Page>>
    decreases |s|
  {
    if s == [] then Some([])
    else
      match PageAt(s)
      case None => None
      case Some(p) =>
        match Pages(s[Size(p)..])
        case None => None
        case Some(rest) => Some([p] + rest)
  }

  /** Where page `k` starts, from the start of the first. */
  function StartOf(pages: seq<Page>, k: nat): nat
    requires k <= |pages|
  {
    if k == 0 then 0 else Size(pages[0]) + StartOf(pages[1..], k - 1)
  }

  // ---- Replacing the statistics of a data page header ----

  /** A V1 data page header is field 5, a V2 one field 8. */
  function DataId(h: seq<Field>): Option<int> {
    if FindField(h, 5).Some? then Some(5) else if FindField(h, 8).Some? then Some(8) else None
  }

  /** The statistics inside a data page header have the header's own id. */
  predicate Poisonable(h: seq<Field>) {
    match DataId(h)
    case None => true
    case Some(id) =>
      match Get(h, id)
      case Some(Struct(data)) => Get(data, id).Some? && Get(data, id).value.Struct?
      case _ => false
  }

  function Poison(h: seq<Field>, stats: Option<Value>): seq<Field> {
    if stats.None? || DataId(h).None? || !Poisonable(h) then h
    else
      var id := DataId(h).value;
      Set(h, id, Struct(Set(Get(h, id).value.fields, id, stats.value)))
  }

  predicate StatsOk(stats: Option<Value>) {
    stats.Some? ==> stats.value.Struct? && RT.Supported(T_STRUCT, stats.value)
  }

  predicate PageOk(p: Page, stats: Option<Value>) {
    && RT.Supported(T_STRUCT, Struct(p.header))
    && IntAt(p.header, 3) == Some(|p.body|)
    && p.headLen >= 1
    && (stats.Some? ==> Poisonable(p.header))
  }

  predicate PagesOk(pages: seq<Page>, stats: Option<Value>) {
    forall p :: p in pages ==> PageOk(p, stats)
  }

  function NewHeader(p: Page, stats: Option<Value>): seq<byte>
  {
    match WriteValue(T_STRUCT, Struct(Poison(p.header, stats)))
    case Ok(bytes) => bytes
    case Refused(_) => []
  }

  /** The page as it reads after the move: the edited header in canonical order, the same body. */
  function NewPage(p: Page, stats: Option<Value>): Page
  {
    Page(SortFields(RT.CanonFields(Poison(p.header, stats))), |NewHeader(p, stats)|, p.body)
  }

  function NewPages(pages: seq<Page>, stats: Option<Value>): (r: seq<Page>)
    ensures |r| == |pages|
  {
    if pages == [] then [] else [NewPage(pages[0], stats)] + NewPages(pages[1..], stats)
  }

  lemma NewPagesOfNone(stats: Option<Value>)
    ensures NewPages([], stats) == []
  {
  }

  lemma NewPagesUnfold(pages: seq<Page>, stats: Option<Value>)
    requires pages != []
    ensures NewPages(pages, stats) == [NewPage(pages[0], stats)] + NewPages(pages[1..], stats)
    ensures NewPages(pages, stats)[1..] == NewPages(pages[1..], stats)
    ensures forall k: nat :: k < |pages| ==>
            StartOf(NewPages(pages, stats), k + 1) == Size(NewPage(pages[0], stats)) + StartOf(NewPages(pages[1..], stats), k)
  {
    hide NewPage;
    Slices.Uncons(NewPage(pages[0], stats), NewPages(pages[1..], stats));
  }

  function Rewritten(pages: seq<Page>, stats: Option<Value>): seq<byte>
  {
    if pages == [] then [] else (NewHeader(pages[0], stats) + pages[0].body) + Rewritten(pages[1..], stats)
  }

  /** How much longer the new headers are. */
  function Growth(pages: seq<Page>, stats: Option<Value>): int
  {
    if pages == [] then 0 else |NewHeader(pages[0], stats)| - pages[0].headLen + Growth(pages[1..], stats)
  }

  // ---- The edited header is one the writer supports, and keeps its size field ----

  lemma {:induction false} SetKeepsSupport(fields: seq<Field>, fid: int, v: Value)
    requires RT.Supported(T_STRUCT, Struct(fields)) && v.Struct? && RT.Supported(T_STRUCT, v)
    requires Get(fields, fid).Some? ==> Get(fields, fid).value.Struct?
    ensures RT.Supported(T_STRUCT, Struct(Set(fields, fid, v)))
  {
    if fields != [] {
      var first, tail := fields[0], fields[1..];
      SupportedFieldsSplit(fields);
      if first.fid == fid {
        SupportedFieldsJoin(first.(val := v), tail);
      } else {
        SetKeepsSupport(tail, fid, v);
        SupportedFieldsJoin(first, Set(tail, fid, v));
      }
    }
  }

  lemma SupportedFieldsSplit(fields: seq<Field>)
    requires fields != [] && RT.Supported(T_STRUCT, Struct(fields))
    ensures RT.Supported(T_STRUCT, Struct(fields[1..]))
    ensures Int64(fields[0].fid) && RT.SupportedIn(fields[0].ft, fields[0].val)
  {
    var v := Struct(fields);
    assert fields[0] in v.fields;
    forall f | f in fields[1..] ensures Int64(f.fid) && RT.SupportedIn(f.ft, f.val) { assert f in v.fields; }
  }

  lemma SupportedFieldsJoin(f: Field, rest: seq<Field>)
    requires Int64(f.fid) && RT.SupportedIn(f.ft, f.val) && RT.Supported(T_STRUCT, Struct(rest))
    ensures RT.Supported(T_STRUCT, Struct([f] + rest))
  {
    var v := Struct(rest);
    forall g | g in [f] + rest ensures Int64(g.fid) && RT.SupportedIn(g.ft, g.val) {
      if g != f { assert g in v.fields; }
    }
  }

  lemma SupportedInside(fields: seq<Field>, fid: int)
    requires RT.Supported(T_STRUCT, Struct(fields)) && Get(fields, fid).Some? && Get(fields, fid).value.Struct?
    ensures RT.Supported(T_STRUCT, Get(fields, fid).value)
  {
    FoundIsIn(fields, fid);
    var v := Struct(fields);
    var f := FindField(fields, fid).value;
    assert f in v.fields;
    assert RT.SupportedIn(f.ft, f.val);
    assert RT.Supported(f.ft, f.val) && f.ft == T_STRUCT;
  }

  lemma PoisonSupported(h: seq<Field>, stats: Option<Value>)
    requires RT.Supported(T_STRUCT, Struct(h)) && StatsOk(stats) && (stats.Some? ==> Poisonable(h))
    ensures RT.Supported(T_STRUCT, Struct(Poison(h, stats)))
    ensures forall fid :: fid != 5 && fid != 8 ==> Get(Poison(h, stats), fid) == Get(h, fid)
  {
    hide RT.Supported;
    if stats.Some? && DataId(h).Some? {
      var id := DataId(h).value;
      var data := Get(h, id).value;
      SupportedInside(h, id);
      assert Struct(data.fields) == data;
      SetKeepsSupport(data.fields, id, stats.value);
      SetKeepsSupport(h, id, Struct(Set(data.fields, id, stats.value)));
      forall fid | fid != 5 && fid != 8 ensures Get(Poison(h, stats), fid) == Get(h, fid) {
        GetSet(h, id, Struct(Set(data.fields, id, stats.value)), fid);
      }
    }
  }

  /** Sorting fields and making them canonical does not change which field comes first for an id. */
  lemma FindInCanon(fields: seq<Field>, fid: int)
    ensures FindField(SortFields(RT.CanonFields(fields)), fid) ==
            match FindField(fields, fid) case Some(f) => Some(RT.CanonField(f)) case None => None
  {
    RT.ByIdIsTotalPreorder();
    var cs := RT.CanonFields(fields);
    var probe := Field(fid, T_TRUE, Bool(true));
    StableSort.SortIsStable(cs, ById);
    FindIsFirstOfClass(SortFields(cs), probe);
    FindIsFirstOfClass(cs, probe);
    FindInMapped(fields, fid);
  }

  lemma {:induction false} FindIsFirstOfClass(fields: seq<Field>, probe: Field)
    ensures var c := StableSort.Class(fields, ById, probe);
            FindField(fields, probe.fid) == if c == [] then None else Some(c[0])
  {
    if fields != [] { FindIsFirstOfClass(fields[1..], probe); }
  }

  lemma {:induction false} FindInMapped(fields: seq<Field>, fid: int)
    ensures FindField(RT.CanonFields(fields), fid) ==
            match FindField(fields, fid) case Some(f) => Some(RT.CanonField(f)) case None => None
  {
    hide RT.Canon;
    if fields != [] {
      FindInMapped(fields[1..], fid);
      assert RT.CanonFields(fields)[1..] == RT.CanonFields(fields[1..]);
    }
  }

  lemma NewPageOk(p: Page, stats: Option<Value>)
    requires PageOk(p, stats) && StatsOk(stats)
    ensures PageOk(NewPage(p, stats), None)
    ensures forall rest :: PageAt(NewHeader(p, stats) + (p.body + rest)) == Some(NewPage(p, stats))
  {
    hide RT.Supported, WriteValue, ReadFields, Poison, RT.CanonFields, SortFields, PageAt;
    var h := Poison(p.header, stats);
    PoisonSupported(p.header, stats);
    TI.CanonWritesTheSame(T_STRUCT, Struct(h));
    FindInCanon(h, 3);
    RT.RoundTrip(T_STRUCT, Struct(h), []);
    CanonOfStruct(h);
    forall rest ensures PageAt(NewHeader(p, stats) + (p.body + rest)) == Some(NewPage(p, stats)) {
      RT.RoundTrip(T_STRUCT, Struct(h), p.body + rest);
      StructReadsFields(NewHeader(p, stats) + (p.body + rest));
      PageFollows(SortFields(RT.CanonFields(h)), NewHeader(p, stats), p.body, rest);
    }
    HeaderNotEmpty(h);
  }

  lemma CanonOfStruct(h: seq<Field>)
    ensures RT.Canon(Struct(h)) == Struct(SortFields(RT.CanonFields(h)))
  {
  }

  lemma StructReadsFields(s: seq<byte>)
    ensures ReadValue(T_STRUCT, s) ==
            match ReadFields(0, s) case Got(fields, used) => Got(Struct(fields), used) case Fail(e) => Fail(e)
  {
    hide ReadFields;
  }

  lemma HeaderNotEmpty(h: seq<Field>)
    requires WriteValue(T_STRUCT, Struct(h)).Ok?
    ensures |WriteValue(T_STRUCT, Struct(h)).bytes| >= 1
  {
    hide WriteFields, SortFields;
  }

  lemma PageFollows(h: seq<Field>, head: seq<byte>, body: seq<byte>, rest: seq<byte>)
    requires ReadFields(0, head + (body + rest)) == Got(h, |head|)
    requires RT.Supported(T_STRUCT, Struct(h)) && IntAt(h, 3) == Some(|body|)
    ensures PageAt(head + (body + rest)) == Some(Page(h, |head|, body))
  {
    hide RT.Supported, ReadFields;
    var s := head + (body + rest);
    assert s[|head|..|head| + |body|] == body;
  }

  // ---- What the edit does to a header ----

  /** The first field with this id is field `k`. */
  predicate FirstAt(fields: seq<Field>, fid: int, k: nat) {
    k < |fields| && fields[k].fid == fid && forall i :: 0 <= i < k ==> fields[i].fid != fid
  }

  predicate Absent(fields: seq<Field>, fid: int) {
    forall i :: 0 <= i < |fields| ==> fields[i].fid != fid
  }

  /** Where the data page header is: the first field 5, or without one the first field 8. */
  predicate DataAt(h: seq<Field>, id: int, k: nat) {
    (id == 5 || (id == 8 && Absent(h, 5))) && FirstAt(h, id, k)
  }

  /** The old header with one thing replaced: the value of the first field of the data header that has the data header's own
      id, which is its statistics. */
  predicate StatsReplaced(was: seq<Field>, now: seq<Field>, stats: Value, id: int, k: nat, j: nat) {
    && DataAt(was, id, k) && was[k].val.Struct? && FirstAt(was[k].val.fields, id, j)
    && now == was[k := was[k].(val := Struct(was[k].val.fields[j := was[k].val.fields[j].(val := stats)]))]
  }

  /** Without statistics, or without a data header, the header is the old one; else only the statistics are replaced. The new
      header stands in canonical form. */
  ghost predicate HeaderMoved(was: seq<Field>, now: seq<Field>, stats: Option<Value>) {
    if stats.None? || (Absent(was, 5) && Absent(was, 8)) then Struct(now) == RT.Canon(Struct(was))
    else exists edited, id, k, j :: StatsReplaced(was, edited, stats.value, id, k, j) && Struct(now) == RT.Canon(Struct(edited))
  }

  ghost predicate PageMoved(was: Page, now: Page, stats: Option<Value>) {
    && HeaderMoved(was.header, now.header, stats) && now.body == was.body
    && WriteValue(T_STRUCT, Struct(now.header)).Ok? && now.headLen == |WriteValue(T_STRUCT, Struct(now.header)).bytes|
  }

  /** The same pages in the same order, each with its body and under its edited header. */
  ghost predicate PagesMoved(was: seq<Page>, now: seq<Page>, stats: Option<Value>) {
    |was| == |now| && forall k :: 0 <= k < |was| ==> PageMoved(was[k], now[k], stats)
  }

  lemma {:induction false} SetAt(fields: seq<Field>, fid: int, v: Value) returns (k: nat)
    requires FindField(fields, fid).Some?
    ensures FirstAt(fields, fid, k) && Get(fields, fid) == Some(fields[k].val)
    ensures Set(fields, fid, v) == fields[k := fields[k].(val := v)]
  {
    if fields[0].fid == fid {
      k := 0;
    } else {
      var l := SetAt(fields[1..], fid, v);
      k := l + 1;
      assert fields == [fields[0]] + fields[1..];
    }
  }

  lemma {:induction false} FindNone(fields: seq<Field>, fid: int)
    ensures FindField(fields, fid).None? <==> Absent(fields, fid)
  {
    if fields != [] {
      FindNone(fields[1..], fid);
      if Absent(fields[1..], fid) && fields[0].fid != fid {
        forall i | 0 <= i < |fields| ensures fields[i].fid != fid { if i > 0 { assert fields[1..][i - 1].fid != fid; } }
      }
      if Absent(fields, fid) {
        forall i | 0 <= i < |fields[1..]| ensures fields[1..][i].fid != fid { assert fields[i + 1].fid != fid; }
      }
    }
  }

  /** Statistics can be replaced in every header but one whose data header is no struct, or has no struct of statistics. */
  lemma PoisonableIff(h: seq<Field>)
    ensures Poisonable(h) <==>
      || (Absent(h, 5) && Absent(h, 8))
      || exists id, k: nat, j: nat :: DataAt(h, id, k) && h[k].val.Struct? && FirstAt(h[k].val.fields, id, j) && h[k].val.fields[j].val.Struct?
  {
    hide Set, FindField;
    FindNone(h, 5);
    FindNone(h, 8);
    if Poisonable(h) && DataId(h).Some? {
      var id := DataId(h).value;
      var k := SetAt(h, id, Get(h, id).value);
      var j := SetAt(Get(h, id).value.fields, id, Get(Get(h, id).value.fields, id).value);
    }
    if id, k: nat, j: nat :| DataAt(h, id, k) && h[k].val.Struct? && FirstAt(h[k].val.fields, id, j) && h[k].val.fields[j].val.Struct? {
      GetReplaced(h, k, id, h[k].val, id);
      GetReplaced(h[k].val.fields, j, id, h[k].val.fields[j].val, id);
    }
  }

  lemma PoisonReplaces(h: seq<Field>, stats: Option<Value>)
    requires stats.Some? ==> Poisonable(h)
    ensures HeaderMoved(h, SortFields(RT.CanonFields(Poison(h, stats))), stats)
  {
    hide Set, FindField, RT.CanonFields, SortFields;
    FindNone(h, 5);
    FindNone(h, 8);
    CanonOfStruct(Poison(h, stats));
    if stats.Some? && DataId(h).Some? {
      var id := DataId(h).value;
      var data := Get(h, id).value.fields;
      var j := SetAt(data, id, stats.value);
      var k := SetAt(h, id, Struct(Set(data, id, stats.value)));
      assert StatsReplaced(h, Poison(h, stats), stats.value, id, k, j);
    }
  }

  lemma NewPageMoved(p: Page, stats: Option<Value>)
    requires PageOk(p, stats) && StatsOk(stats)
    ensures PageMoved(p, NewPage(p, stats), stats)
  {
    hide RT.Supported, WriteValue, Poison, HeaderMoved;
    var h := Poison(p.header, stats);
    PoisonSupported(p.header, stats);
    TI.CanonWritesTheSame(T_STRUCT, Struct(h));
    RT.RoundTrip(T_STRUCT, Struct(h), []);
    CanonOfStruct(h);
    PoisonReplaces(p.header, stats);
  }

  lemma {:induction false} NewPagesMoved(pages: seq<Page>, stats: Option<Value>)
    requires PagesOk(pages, stats) && StatsOk(stats)
    ensures PagesMoved(pages, NewPages(pages, stats), stats)
  {
    hide NewPage, PageMoved, PageOk;
    if pages != [] {
      assert pages[0] in pages;
      NewPageMoved(pages[0], stats);
      NewPagesMoved(pages[1..], stats);
      NewPagesUnfold(pages, stats);
      var now := NewPages(pages, stats);
      forall k | 0 <= k < |pages| ensures PageMoved(pages[k], now[k], stats) {
        if k > 0 { assert pages[1..][k - 1] == pages[k] && now[1..][k - 1] == now[k]; }
      }
    }
  }

  // ---- The same, field by field ----

  predicate SameField(a: seq<Field>, b: seq<Field>, fid: int) {
    Get(b, fid) == match Get(a, fid) case Some(v) => Some(RT.Canon(v)) case None => None
  }

  lemma GetInCanon(fields: seq<Field>, fid: int)
    ensures RT.Canon(Struct(fields)).Struct?
    ensures SameField(fields, RT.Canon(Struct(fields)).fields, fid)
  {
    hide FindField, SortFields, RT.CanonFields;
    FindInCanon(fields, fid);
    CanonOfStruct(fields);
  }

  lemma {:induction false} GetReplaced(fields: seq<Field>, k: nat, fid: int, v: Value, id: int)
    requires FirstAt(fields, fid, k)
    ensures Get(fields, fid) == Some(fields[k].val)
    ensures Get(fields[k := fields[k].(val := v)], id) == if id == fid then Some(v) else Get(fields, id)
  {
    var now := fields[k := fields[k].(val := v)];
    if k > 0 {
      assert FirstAt(fields[1..], fid, k - 1);
      GetReplaced(fields[1..], k - 1, fid, v, id);
      assert now[1..] == fields[1..][k - 1 := fields[1..][k - 1].(val := v)];
    } else {
      assert now[1..] == fields[1..];
    }
  }

  /** Looked up by id: every field of the header but the data header is the old one, and of the data header every field but
      the statistics; the statistics are those given. */
  lemma MovedHeaderFields(was: seq<Field>, now: seq<Field>, stats: Value)
    requires HeaderMoved(was, now, Some(stats)) && !(Absent(was, 5) && Absent(was, 8))
    ensures var id := if Get(was, 5).Some? then 5 else 8;
      && (forall fid :: fid != id ==> SameField(was, now, fid))
      && Get(was, id).Some? && Get(was, id).value.Struct? && Get(now, id).Some? && Get(now, id).value.Struct?
      && var dataWas, dataNow := Get(was, id).value.fields, Get(now, id).value.fields;
      && Get(dataNow, id) == Some(RT.Canon(stats)) && forall fid :: fid != id ==> SameField(dataWas, dataNow, fid)
  {
    hide FindField, RT.Canon, Get, StatsReplaced;
    var edited, id, k, j :| StatsReplaced(was, edited, stats, id, k, j) && Struct(now) == RT.Canon(Struct(edited));
    AbsentGet(was, 5);
    EditedFields(was, edited, now, stats, id, k, j);
  }

  lemma EditedFields(was: seq<Field>, edited: seq<Field>, now: seq<Field>, stats: Value, id: int, k: nat, j: nat)
    requires StatsReplaced(was, edited, stats, id, k, j) && Struct(now) == RT.Canon(Struct(edited))
    ensures forall fid :: fid != id ==> SameField(was, now, fid)
    ensures Get(was, id).Some? && Get(was, id).value.Struct? && Get(now, id).Some? && Get(now, id).value.Struct?
    ensures Get(Get(now, id).value.fields, id) == Some(RT.Canon(stats))
    ensures forall fid :: fid != id ==> SameField(Get(was, id).value.fields, Get(now, id).value.fields, fid)
    ensures id == 5 || (id == 8 && Absent(was, 5))
  {
    hide FindField, RT.Canon, Get;
    var dataWas := was[k].val.fields;
    var data := dataWas[j := dataWas[j].(val := stats)];
    GetReplaced(was, k, id, Struct(data), id);
    GetInCanon(edited, id);
    GetInCanon(data, id);
    assert SameField(edited, now, id);
    var dataNow := RT.Canon(Struct(data)).fields;
    GetReplaced(dataWas, j, id, stats, id);
    assert SameField(data, dataNow, id);
    forall fid | fid != id ensures SameField(was, now, fid) {
      GetReplaced(was, k, id, Struct(data), fid);
      GetInCanon(edited, fid);
    }
    forall fid | fid != id ensures SameField(dataWas, dataNow, fid) {
      GetReplaced(dataWas, j, id, stats, fid);
      GetInCanon(data, fid);
    }
  }

  lemma AbsentGet(fields: seq<Field>, fid: int)
    ensures Get(fields, fid).None? <==> Absent(fields, fid)
  {
    FindNone(fields, fid);
  }

  // ---- Walking the moved pages ----

  /** The moved bytes hold the moved pages: same bodies, in the same order, under the edited headers. */
  lemma {:induction false} PagesOfRewritten(pages: seq<Page>, stats: Option<Value>)
    requires PagesOk(pages, stats) && StatsOk(stats)
    ensures Pages(Rewritten(pages, stats)) == Some(NewPages(pages, stats))
    ensures PagesMoved(pages, NewPages(pages, stats), stats)
  {
    hide PageAt, NewHeader, PageOk, PagesMoved;
    NewPagesMoved(pages, stats);
    if pages != [] {
      var p := pages[0];
      assert p in pages;
      var rest := Rewritten(pages[1..], stats);
      NewPageOk(p, stats);
      PagesOfRewritten(pages[1..], stats);
      var head := NewHeader(p, stats);
      Slices.Assoc(head, p.body, rest);
      assert PageAt(head + (p.body + rest)) == Some(NewPage(p, stats));
      PagesUnfold(head + p.body, rest, NewPage(p, stats));
    }
  }

  lemma PagesUnfold(front: seq<byte>, rest: seq<byte>, p: Page)
    requires PageAt(front + rest) == Some(p) && Size(p) == |front| && Pages(rest).Some?
    ensures Pages(front + rest) == Some([p] + Pages(rest).value)
  {
    hide PageAt;
    assert (front + rest)[|front|..] == rest;
  }

  lemma {:induction false} RewrittenLength(pages: seq<Page>, stats: Option<Value>)
    ensures |Rewritten(pages, stats)| == StartOf(NewPages(pages, stats), |pages|)
    ensures |Rewritten(pages, stats)| == StartOf(pages, |pages|) + Growth(pages, stats)
  {
    hide NewHeader, NewPages;
    if pages == [] {
      NewPagesOfNone(stats);
    } else {
      NewPagesUnfold(pages, stats);
      RewrittenLength(pages[1..], stats);
    }
  }

  /** What was read as pages can be moved: only the statistics to be replaced must be there. */
  lemma {:induction false} ReadPagesOk(s: seq<byte>, stats: Option<Value>)
    requires Pages(s).Some?
    requires stats.Some? ==> forall p :: p in Pages(s).value ==> Poisonable(p.header)
    ensures PagesOk(Pages(s).value, stats)
    ensures StartOf(Pages(s).value, |Pages(s).value|) == |s|
    decreases |s|
  {
    if s != [] {
      PageReadOk(s, stats);
      var p := PageAt(s).value;
      var rest := Pages(s[Size(p)..]).value;
      hide PageAt, PageOk, Poisonable;
      assert Pages(s).value == [p] + rest;
      assert p in Pages(s).value;
      forall q | q in rest ensures q in Pages(s).value {}
      ReadPagesOk(s[Size(p)..], stats);
      assert ([p] + rest)[1..] == rest;
    }
  }

  lemma PageReadOk(s: seq<byte>, stats: Option<Value>)
    requires PageAt(s).Some? && (stats.Some? ==> Poisonable(PageAt(s).value.header))
    ensures PageOk(PageAt(s).value, stats)
  {
    hide RT.Supported, Poisonable, ReadFields;
    FieldsUseTheStop(0, s);
  }

  // ---- Offsets that name a page ----

  /** Where an offset goes: the new start of the page it named, if it named one. */
  function Moved(was: int, pos: int, out: int, pages: seq<Page>, stats: Option<Value>): Option<int>
    decreases |pages|
  {
    if pages == [] then None
    else if was == pos then Some(out)
    else Moved(was, pos + Size(pages[0]), out + Size(NewPage(pages[0], stats)), pages[1..], stats)
  }

  lemma StartOfPositive(pages: seq<Page>, k: nat)
    requires 0 < k <= |pages| && Size(pages[0]) >= 1
    ensures StartOf(pages, k) >= 1
  {
  }

  /** An offset that named page `k` names page `k` afterwards. */
  lemma {:induction false} MovedNamesSamePage(k: nat, pos: int, out: int, pages: seq<Page>, stats: Option<Value>)
    requires k < |pages| && forall p :: p in pages ==> Size(p) >= 1
    ensures Moved(pos + StartOf(pages, k), pos, out, pages, stats) == Some(out + StartOf(NewPages(pages, stats), k))
    decreases |pages|
  {
    hide NewPage, NewPages;
    assert pages[0] in pages;
    NewPagesUnfold(pages, stats);
    if k > 0 {
      StartOfPositive(pages, k);
      MovedNamesSamePage(k - 1, pos + Size(pages[0]), out + Size(NewPage(pages[0], stats)), pages[1..], stats);
    }
  }

  /** Only an offset that names a page moves. */
  lemma {:induction false} MovedOnlyPages(was: int, pos: int, out: int, pages: seq<Page>, stats: Option<Value>)
    requires Moved(was, pos, out, pages, stats).Some?
    ensures exists k :: 0 <= k < |pages| && was == pos + StartOf(pages, k)
    decreases |pages|
  {
    hide NewPage;
    if was != pos {
      MovedOnlyPages(was, pos + Size(pages[0]), out + Size(NewPage(pages[0], stats)), pages[1..], stats);
      var k :| 0 <= k < |pages[1..]| && was == pos + Size(pages[0]) + StartOf(pages[1..], k);
      assert was == pos + StartOf(pages, k + 1);
    } else {
      assert was == pos + StartOf(pages, 0);
    }
  }
}
