/** The metadata that the page relocation leaves can be written: it stays within what the protocol carries. */
module RelocatedMeta {
  import opened Options
  import opened Bits
  import opened Thrift
  import opened PageRelocation
  import opened FileRelocation
  import RT = ThriftRoundTrip

  /** Far below the 64-bit bound; sizes of files and of their pages are. */
  const LIMIT: nat := 0x4000_0000_0000_0000

  // ---- What is asked of the input ----

  predicate IntTag(fields: seq<Field>, fid: int) {
    FindField(fields, fid).Some? ==> IsInt(FindField(fields, fid).value.ft)
  }

  predicate HasTag(fields: seq<Field>, fid: int, t: Tag) {
    FindField(fields, fid).Some? ==> FindField(fields, fid).value.ft == t
  }

  predicate TypedColumn(cm: seq<Field>) {
    IntTag(cm, 6) && IntTag(cm, 7) && IntTag(cm, 9) && IntTag(cm, 10) && IntTag(cm, 11) && HasTag(cm, 12, T_STRUCT)
  }

  function HeaderBytes(pages: seq<Page>): nat {
    if pages == [] then 0 else pages[0].headLen + HeaderBytes(pages[1..])
  }

  /** The fields have the types of the format, and the uncompressed size counts the page headers, as the format says. */
  predicate ChunkTyped(original: seq<byte>, v: Value) {
    match View(original, v)
    case None => false
    case Some(c) => TypedColumn(c.cm) && IntTag(c.fields, 2) && HeaderBytes(c.pages) <= RawSize(v)
  }

  predicate GroupTyped(original: seq<byte>, rg: Value) {
    match rg
    case Struct(fields) =>
      IntTag(fields, 2) &&
      (match Get(fields, 1)
       case Some(List(et, chunks)) =>
         et == T_STRUCT && (forall i :: 0 <= i < |chunks| ==> ChunkTyped(original, chunks[i])) && RawTotal(chunks) < LIMIT
       case _ => false)
    case _ => false
  }

  predicate MetaTyped(meta: Value, original: seq<byte>) {
    match meta
    case Struct(fields) =>
      HasTag(fields, 6, T_BINARY) &&
      (match Get(fields, 4)
       case Some(List(et, groups)) => et == T_STRUCT && forall i :: 0 <= i < |groups| ==> GroupTyped(original, groups[i])
       case _ => false)
    case _ => false
  }

  // ---- Assigning keeps support ----

  lemma {:induction false} SetSupported(fields: seq<Field>, fid: int, v: Value)
    requires RT.Supported(T_STRUCT, Struct(fields))
    requires FindField(fields, fid).Some? ==> RT.SupportedIn(FindField(fields, fid).value.ft, v)
    ensures RT.Supported(T_STRUCT, Struct(Set(fields, fid, v)))
  {
    hide RT.Supported, RT.SupportedIn;
    if fields != [] {
      var first, tail := fields[0], fields[1..];
      SupportedFieldsSplit(fields);
      if first.fid == fid {
        SupportedFieldsJoin(first.(val := v), tail);
      } else {
        SetSupported(tail, fid, v);
        SupportedFieldsJoin(first, Set(tail, fid, v));
      }
    }
  }

  lemma IntSupported(t: Tag, n: int)
    requires IsInt(t) && Int64(n)
    ensures RT.SupportedIn(t, Int(n))
  {
  }

  /** Assigning an integer to an integer field. */
  lemma SetInt(fields: seq<Field>, fid: int, n: int)
    requires RT.Supported(T_STRUCT, Struct(fields)) && IntTag(fields, fid) && Int64(n)
    ensures RT.Supported(T_STRUCT, Struct(Set(fields, fid, Int(n))))
  {
    hide RT.Supported, RT.SupportedIn;
    if FindField(fields, fid).Some? { IntSupported(FindField(fields, fid).value.ft, n); }
    SetSupported(fields, fid, Int(n));
  }

  /** Assigning changes no tag. */
  lemma SetTags(fields: seq<Field>, fid: int, v: Value)
    ensures forall id :: IntTag(Set(fields, fid, v), id) == IntTag(fields, id)
    ensures forall id, t :: HasTag(Set(fields, fid, v), id, t) == HasTag(fields, id, t)
  {
    hide FindField, Set;
    forall id ensures IntTag(Set(fields, fid, v), id) == IntTag(fields, id) { GetSet(fields, fid, v, id); }
    forall id, t ensures HasTag(Set(fields, fid, v), id, t) == HasTag(fields, id, t) { GetSet(fields, fid, v, id); }
  }

  lemma SetColumn(cm: seq<Field>, fid: int, v: Value)
    requires TypedColumn(cm)
    ensures TypedColumn(Set(cm, fid, v))
  {
    hide IntTag, HasTag;
    SetTags(cm, fid, v);
  }

  // ---- One chunk ----

  predicate ColumnOk(cm: seq<Field>) {
    TypedColumn(cm) && RT.Supported(T_STRUCT, Struct(cm))
  }

  lemma SetColumnInt(cm: seq<Field>, fid: int, n: int)
    requires ColumnOk(cm) && fid in {6, 7, 9, 10, 11} && Int64(n)
    ensures ColumnOk(Set(cm, fid, Int(n)))
  {
    hide RT.Supported, IntTag, HasTag;
    SetColumn(cm, fid, Int(n));
    SetInt(cm, fid, n);
  }

  lemma MoveHereOk(cm: seq<Field>, o: Offsets, pos: int, out: int)
    requires ColumnOk(cm) && Int64(out)
    ensures ColumnOk(MoveHere(cm, o, pos, out))
  {
    hide ColumnOk;
    var cm1 := if o.data == Some(pos) then Set(cm, 9, Int(out)) else cm;
    var cm2 := if o.index == Some(pos) then Set(cm1, 10, Int(out)) else cm1;
    SetColumnInt(cm, 9, out);
    SetColumnInt(cm1, 10, out);
    SetColumnInt(cm2, 11, out);
  }

  lemma {:induction false} MoveAllOk(cm: seq<Field>, o: Offsets, pos: int, out: int, pages: seq<Page>, stats: Option<Value>)
    requires ColumnOk(cm) && 0 <= out && out + |Rewritten(pages, stats)| <= LIMIT
    ensures ColumnOk(MoveAll(cm, o, pos, out, pages, stats))
    decreases |pages|
  {
    hide ColumnOk, MoveHere, NewPage, MoveAll, Rewritten;
    if pages != [] {
      OnePageMoved(cm, o, pos, out, pages, stats);
      MoveHereOk(cm, o, pos, out);
      MoveAllOk(MoveHere(cm, o, pos, out), o, pos + Size(pages[0]), out + Size(NewPage(pages[0], stats)), pages[1..], stats);
    } else {
      NothingMoved(cm, o, pos, out, stats);
    }
  }

  lemma NothingMoved(cm: seq<Field>, o: Offsets, pos: int, out: int, stats: Option<Value>)
    ensures MoveAll(cm, o, pos, out, [], stats) == cm
  {
  }

  lemma OnePageMoved(cm: seq<Field>, o: Offsets, pos: int, out: int, pages: seq<Page>, stats: Option<Value>)
    requires pages != []
    ensures |Rewritten(pages, stats)| == Size(NewPage(pages[0], stats)) + |Rewritten(pages[1..], stats)|
    ensures MoveAll(cm, o, pos, out, pages, stats)
         == MoveAll(MoveHere(cm, o, pos, out), o, pos + Size(pages[0]), out + Size(NewPage(pages[0], stats)), pages[1..], stats)
  {
    hide NewHeader, MoveHere;
  }

  /** What the headers grow by is at least what they were, taken away. */
  lemma {:induction false} GrowthBounds(pages: seq<Page>, stats: Option<Value>)
    ensures 0 <= HeaderBytes(pages) + Growth(pages, stats) && Growth(pages, stats) <= |Rewritten(pages, stats)|
  {
    hide NewHeader;
    if pages != [] { GrowthBounds(pages[1..], stats); }
  }

  lemma StatsSupported(stats: Option<Value>)
    requires StatsOk(stats) && stats.Some?
    ensures RT.SupportedIn(T_STRUCT, stats.value)
  {
  }

  lemma MovedMetaOk(c: Chunk, out: int, stats: Option<Value>)
    requires ColumnOk(c.cm) && StatsOk(stats) && 0 <= out && out + |Rewritten(c.pages, stats)| <= LIMIT
    requires IntAt(c.cm, 6).Some? && HeaderBytes(c.pages) <= IntAt(c.cm, 6).value < LIMIT
    ensures ColumnOk(MovedMeta(c.cm, c.start, out, c.pages, stats))
  {
    hide ColumnOk, MoveAll, Rewritten, Growth, Set, FindField, HeaderBytes;
    var cm1 := if stats.Some? then Set(c.cm, 12, stats.value) else c.cm;
    StatsColumn(c.cm, stats);
    var cm2 := MoveAll(cm1, OffsetsOf(c.cm), c.start, out, c.pages, stats);
    MoveAllOk(cm1, OffsetsOf(c.cm), c.start, out, c.pages, stats);
    SetColumnInt(cm2, 7, |Rewritten(c.pages, stats)|);
    GrowthBounds(c.pages, stats);
    SetColumnInt(Set(cm2, 7, Int(|Rewritten(c.pages, stats)|)), 6, IntAt(c.cm, 6).value + Growth(c.pages, stats));
  }

  lemma StatsColumn(cm: seq<Field>, stats: Option<Value>)
    requires ColumnOk(cm) && StatsOk(stats)
    ensures ColumnOk(if stats.Some? then Set(cm, 12, stats.value) else cm)
  {
    hide RT.Supported, RT.SupportedIn, IntTag, FindField, Set;
    if stats.Some? {
      SetColumn(cm, 12, stats.value);
      StatsSupported(stats);
      SetSupported(cm, 12, stats.value);
    }
  }

  lemma MovedChunkOk(original: seq<byte>, v: Value, c: Chunk, out: int, stats: Option<Value>)
    requires View(original, v) == Some(c) && ChunkTyped(original, v) && RT.Supported(T_STRUCT, v) && Ready(c, stats) && StatsOk(stats)
    requires 0 <= out && out + |Rewritten(c.pages, stats)| <= LIMIT && RawSize(v) < LIMIT
    ensures RT.Supported(T_STRUCT, MovedChunk(c, out, stats))
  {
    hide TypedColumn, IntTag, HasTag, Pages, StartOffset, FindField, RT.Supported, MovedMeta, Rewritten, HeaderBytes, Ready, StatsOk;
    ViewParts(original, v, c);
    ReadyFields(c, stats);
    SupportedInside(c.fields, 3);
    RawSizeOf(original, v, c);
    var cm := MovedMeta(c.cm, c.start, out, c.pages, stats);
    MovedMetaOk(c, out, stats);
    StructField(c.fields, 3, Struct(cm));
    SetTags(c.fields, 3, Struct(cm));
    FirstOffset(cm);
    SetInt(Set(c.fields, 3, Struct(cm)), 2, match IntAt(cm, 9) case Some(n) => n case None => 0);
    MovedChunkFirst(original, v, c, out, stats);
  }

  lemma ViewParts(original: seq<byte>, v: Value, c: Chunk)
    requires View(original, v) == Some(c)
    ensures v == Struct(c.fields) && Get(c.fields, 3) == Some(Struct(c.cm))
  {
    hide Pages, StartOffset, FindField;
  }

  /** A field that holds a struct takes another one. */
  lemma StructField(fields: seq<Field>, fid: int, v: Value)
    requires RT.Supported(T_STRUCT, Struct(fields)) && Get(fields, fid).Some? && Get(fields, fid).value.Struct?
    requires v.Struct? && RT.Supported(T_STRUCT, v)
    ensures RT.Supported(T_STRUCT, Struct(Set(fields, fid, v)))
  {
    hide RT.Supported;
    SetKeepsSupport(fields, fid, v);
  }

  lemma FirstOffset(cm: seq<Field>)
    requires ColumnOk(cm)
    ensures IntAt(cm, 9).Some? ==> Int64(IntAt(cm, 9).value)
  {
    if IntAt(cm, 9).Some? {
      FoundIsIn(cm, 9);
      var f := FindField(cm, 9).value;
      var v := Struct(cm);
      assert f in v.fields;
      assert RT.SupportedIn(f.ft, f.val) && f.val == Int(IntAt(cm, 9).value);
      assert RT.Supported(f.ft, f.val);
    }
  }

  /** The moved chunk's first offset is the moved data page offset. */
  lemma MovedChunkFirst(original: seq<byte>, v: Value, c: Chunk, out: int, stats: Option<Value>)
    requires View(original, v) == Some(c) && Ready(c, stats) && StatsOk(stats)
    ensures var cm := MovedMeta(c.cm, c.start, out, c.pages, stats);
      IntAt(cm, 9).Some? && MovedChunk(c, out, stats) == Struct(Set(Set(c.fields, 3, Struct(cm)), 2, Int(IntAt(cm, 9).value)))
  {
    hide MovedMeta, FindField, Pages, StartOf, Poisonable, PageOk, NewPages, StatsOk;
    ViewReady(original, v, c, stats);
    var k :| 0 <= k < |c.pages| && IntAt(c.cm, 9).value == c.start + StartOf(c.pages, k);
    MovedOffset(c, out, stats, 9, k);
  }

  // ---- Row groups and the file ----

  lemma MovedRawSize(original: seq<byte>, v: Value, c: Chunk, out: int, stats: Option<Value>)
    requires View(original, v) == Some(c) && Ready(c, stats) && StatsOk(stats)
    ensures RawSize(MovedChunk(c, out, stats)) == RawSize(v) + Growth(c.pages, stats)
  {
    hide MovedMeta, MovedChunk, FindField, Get, Growth, View, Ready, StatsOk, PageOk;
    ViewReady(original, v, c, stats);
    ReadyFields(c, stats);
    MovedFields(c, out, stats, 6);
    MovedChunkFirst(original, v, c, out, stats);
    MovedChunkFields(c, out, stats);
    RawSizeOf(original, v, c);
    ViewParts(original, v, c);
  }

  lemma {:induction false} RawTotalUpTo(original: seq<byte>, chunks: seq<Value>, n: nat)
    requires n <= |chunks| && forall i :: 0 <= i < |chunks| ==> ChunkTyped(original, chunks[i])
    ensures 0 <= RawTotal(chunks[..n]) <= RawTotal(chunks)
    decreases |chunks|
  {
    hide View, RawSize, TypedColumn, IntTag;
    if n == |chunks| {
      assert chunks[..n] == chunks;
      if n > 0 { RawTotalUpTo(original, chunks[..n - 1], n - 1); assert chunks[..n - 1][..n - 1] == chunks[..n - 1]; }
    } else {
      var front := chunks[..|chunks| - 1];
      RawTotalUpTo(original, front, n);
      assert front[..n] == chunks[..n];
      assert ChunkTyped(original, chunks[|chunks| - 1]);
    }
  }

  lemma {:induction false} BodiesGrow(original: seq<byte>, chunks: seq<Value>, stats: seq<Value>, m: nat, n: nat, body0: seq<byte>)
    requires m <= n <= |chunks|
    ensures |MovedChunks(original, chunks, stats, m, body0).body| <= |MovedChunks(original, chunks, stats, n, body0).body|
    decreases n
  {
    hide View, MovedChunk, Rewritten;
    if m < n { BodiesGrow(original, chunks, stats, m, n - 1, body0); }
  }

  predicate ChunksOk(original: seq<byte>, chunks: seq<Value>, stats: seq<Value>) {
    ChunksReady(original, chunks, stats) && AllStatsOk(stats) && RawTotal(chunks) < LIMIT
    && forall i :: 0 <= i < |chunks| ==> ChunkTyped(original, chunks[i]) && RT.Supported(T_STRUCT, chunks[i])
  }

  predicate AllSupported(items: seq<Value>) {
    forall i :: 0 <= i < |items| ==> RT.Supported(T_STRUCT, items[i])
  }

  lemma {:induction false} MovedChunksOk(original: seq<byte>, chunks: seq<Value>, stats: seq<Value>, n: nat, body0: seq<byte>)
    requires n <= |chunks| && ChunksOk(original, chunks, stats)
    requires |MovedChunks(original, chunks, stats, |chunks|, body0).body| <= LIMIT
    ensures var r := MovedChunks(original, chunks, stats, n, body0);
      && AllSupported(r.items) && |body0| <= |r.body|
      && 0 <= RawTotal(r.items) <= RawTotal(chunks[..n]) + |r.body| - |body0|
  {
    hide View, Ready, MovedChunk, Rewritten, RawSize, Growth, RT.Supported, MovedChunks, HeaderBytes, StatsOk, TypedColumn, IntTag;
    if n == 0 {
      NoChunksMoved(original, chunks, stats, body0);
    } else {
      var v := chunks[n - 1];
      var c, stat := View(original, v).value, StatsFor(stats, n - 1);
      var before := MovedChunks(original, chunks, stats, n - 1, body0);
      assert stat.Some? ==> stat.value in stats;
      MovedChunksOk(original, chunks, stats, n - 1, body0);
      OneChunkMore(original, chunks, stats, n - 1, body0);
      BodiesGrow(original, chunks, stats, n, |chunks|, body0);
      RawTotalUpTo(original, chunks, n - 1);
      RawTotalUpTo(original, chunks, n);
      assert chunks[..n][..n - 1] == chunks[..n - 1];
      StatsAllowed(stats, stat);
      MovedChunkOk(original, v, c, |before.body|, stat);
      MovedRawSize(original, v, c, |before.body|, stat);
      GrowthBounds(c.pages, stat);
      var r := MovedChunks(original, chunks, stats, n, body0);
      assert r.items[..n - 1] == before.items && r.items[n - 1] == MovedChunk(c, |before.body|, stat);
    }
  }

  lemma StatsAllowed(stats: seq<Value>, stat: Option<Value>)
    requires AllStatsOk(stats) && (stat.Some? ==> stat.value in stats)
    ensures StatsOk(stat)
  {
  }

  /** A list field takes another list of supported structs. */
  lemma ListField(fields: seq<Field>, fid: int, items: seq<Value>)
    requires RT.Supported(T_STRUCT, Struct(fields)) && AllSupported(items)
    requires Get(fields, fid).Some? && Get(fields, fid).value.List? && Get(fields, fid).value.et == T_STRUCT
    ensures RT.Supported(T_STRUCT, Struct(Set(fields, fid, List(T_STRUCT, items))))
  {
    FoundIsIn(fields, fid);
    var f, v := FindField(fields, fid).value, Struct(fields);
    assert f in v.fields;
    assert RT.SupportedIn(f.ft, f.val);
    assert RT.Supported(f.ft, f.val);
    ListSupported(f.ft, items);
    SetSupported(fields, fid, List(T_STRUCT, items));
  }

  lemma ListSupported(t: Tag, items: seq<Value>)
    requires IsList(t) && AllSupported(items)
    ensures RT.SupportedIn(t, List(T_STRUCT, items))
  {
    var v := List(T_STRUCT, items);
    forall x | x in v.items ensures RT.SupportedIn(T_STRUCT, x) {}
  }

  /** The elements of a supported list field. */
  lemma ItemsSupported(fields: seq<Field>, fid: int)
    requires RT.Supported(T_STRUCT, Struct(fields))
    requires Get(fields, fid).Some? && Get(fields, fid).value.List? && Get(fields, fid).value.et == T_STRUCT
    ensures AllSupported(Get(fields, fid).value.items)
  {
    FoundIsIn(fields, fid);
    var f, v := FindField(fields, fid).value, Struct(fields);
    assert f in v.fields;
    assert RT.SupportedIn(f.ft, f.val);
    assert RT.Supported(f.ft, f.val);
    var items := Get(fields, fid).value.items;
    forall i | 0 <= i < |items| ensures RT.Supported(T_STRUCT, items[i]) {
      assert items[i] in f.val.items;
      assert RT.SupportedIn(T_STRUCT, items[i]);
    }
  }

  lemma MovedGroupOk(original: seq<byte>, rg: Value, stats: seq<Value>, body0: seq<byte>)
    requires GroupReady(original, rg, stats) && GroupTyped(original, rg) && RT.Supported(T_STRUCT, rg) && AllStatsOk(stats)
    requires |BodyAfter(original, rg, stats, body0)| <= LIMIT
    ensures RT.Supported(T_STRUCT, MovedGroup(original, rg, stats, body0)) && |body0| <= |BodyAfter(original, rg, stats, body0)|
  {
    hide RT.Supported, FindField, ChunkTyped, RawTotal, MovedChunks, IntTag, StatsOk, View, Ready;
    var chunks := Get(rg.fields, 1).value.items;
    ItemsSupported(rg.fields, 1);
    MovedChunksOk(original, chunks, stats, |chunks|, body0);
    assert chunks[..|chunks|] == chunks;
    var done := MovedChunks(original, chunks, stats, |chunks|, body0).items;
    ListField(rg.fields, 1, done);
    SetTags(rg.fields, 1, List(T_STRUCT, done));
    SetInt(Set(rg.fields, 1, List(T_STRUCT, done)), 2, RawTotal(done));
  }

  lemma {:induction false} GroupBodiesGrow(original: seq<byte>, groups: seq<Value>, stats: seq<Value>, m: nat, n: nat)
    requires m <= n <= |groups|
    ensures |MovedGroups(original, groups, stats, m).body| <= |MovedGroups(original, groups, stats, n).body|
    decreases n
  {
    hide MovedChunks, MovedGroup, ChunksOf;
    if m < n {
      GroupBodiesGrow(original, groups, stats, m, n - 1);
      var before := MovedGroups(original, groups, stats, n - 1).body;
      var chunks := ChunksOf(groups[n - 1]);
      BodiesGrow(original, chunks, stats, 0, |chunks|, before);
      NoChunksMoved(original, chunks, stats, before);
    }
  }

  predicate GroupsOk(original: seq<byte>, groups: seq<Value>, stats: seq<Value>) {
    AllSupported(groups) && forall i :: 0 <= i < |groups| ==> GroupReady(original, groups[i], stats) && GroupTyped(original, groups[i])
  }

  lemma {:induction false} MovedGroupsOk(original: seq<byte>, groups: seq<Value>, stats: seq<Value>, n: nat)
    requires n <= |groups| && GroupsOk(original, groups, stats) && AllStatsOk(stats)
    requires |MovedGroups(original, groups, stats, |groups|).body| <= LIMIT
    ensures AllSupported(MovedGroups(original, groups, stats, n).items)
  {
    hide RT.Supported, MovedGroup, BodyAfter, GroupReady, GroupTyped, MovedGroups, AllStatsOk;
    if n == 0 {
      NoGroupsMoved(original, groups, stats);
    } else {
      MovedGroupsOk(original, groups, stats, n - 1);
      OneGroupMore(original, groups, stats, n - 1);
      GroupBodiesGrow(original, groups, stats, n, |groups|);
      MovedGroupOk(original, groups[n - 1], stats, MovedGroups(original, groups, stats, n - 1).body);
    }
  }

  /** The metadata after the whole edit can be written, when the new body stays below the limit. */
  lemma MovedMetadataOk(meta: Value, original: seq<byte>, stats: seq<Value>, writer: seq<byte>)
    requires RT.Supported(T_STRUCT, meta) && MetaTyped(meta, original) && AllStatsOk(stats)
    requires forall rg :: rg in GroupsOf(meta) ==> GroupReady(original, rg, stats)
    requires |MovedBody(meta, original, stats)| <= LIMIT
    ensures RT.Supported(T_STRUCT, MovedMetadata(meta, original, stats, writer))
  {
    hide RT.Supported, FindField, GroupReady, GroupTyped, MovedGroups, AllStatsOk, AllSupported;
    var groups := GroupsOf(meta);
    ItemsSupported(meta.fields, 4);
    MovedGroupsOk(original, groups, stats, |groups|);
    var done := MovedGroups(original, groups, stats, |groups|).items;
    ListField(meta.fields, 4, done);
    SetTags(meta.fields, 4, List(T_STRUCT, done));
    WriterSupported(Set(meta.fields, 4, List(T_STRUCT, done)), writer);
  }

  lemma WriterSupported(fields: seq<Field>, writer: seq<byte>)
    requires RT.Supported(T_STRUCT, Struct(fields)) && HasTag(fields, 6, T_BINARY)
    ensures RT.Supported(T_STRUCT, Struct(Set(fields, 6, Bytes(writer))))
  {
    SetSupported(fields, 6, Bytes(writer));
  }
}
