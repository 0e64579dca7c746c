/** A relocated file opened again: its pages are still there. */
module RelocatedFile {
  import opened Options
  import opened Thrift
  import opened PageRelocation
  import opened FileRelocation
  import opened RelocatedMeta
  import Footer
  import RT = ThriftRoundTrip

  /** Column chunk `j` of row group `i`. */
  function ChunkAt(meta: Value, i: nat, j: nat): Option<Value> {
    match ItemAt(meta, 4, i)
    case Some(rg) => ItemAt(rg, 1, j)
    case None => None
  }

  /** Element `i` of the list in field `fid`. */
  function ItemAt(v: Value, fid: int, i: nat): Option<Value> {
    match v
    case Struct(fields) =>
      (match Get(fields, fid)
       case Some(List(_, items)) => if i < |items| then Some(items[i]) else None
       case _ => None)
    case _ => None
  }

  lemma ItemInCanon(v: Value, fid: int, i: nat)
    ensures ItemAt(RT.Canon(v), fid, i) == match ItemAt(v, fid, i) case Some(x) => Some(RT.Canon(x)) case None => None
  {
    hide FindField, SortFields, RT.CanonFields, Get;
    if v.Struct? { GetInCanon(v.fields, fid); }
  }

  lemma ChunkInCanon(meta: Value, i: nat, j: nat)
    ensures ChunkAt(RT.Canon(meta), i, j) == match ChunkAt(meta, i, j) case Some(x) => Some(RT.Canon(x)) case None => None
  {
    hide ItemAt, RT.Canon;
    ItemInCanon(meta, 4, i);
    match ItemAt(meta, 4, i)
    case Some(rg) => ItemInCanon(rg, 1, j);
    case None =>
  }

  /** The same chunk in metadata whose fields may be sorted: every field is there, in canonical form. */
  ghost predicate SameChunk(a: Chunk, b: Chunk) {
    && a.start == b.start && a.end == b.end && a.pages == b.pages
    && (forall fid :: SameField(a.cm, b.cm, fid))
    && (forall fid :: SameField(a.fields, b.fields, fid))
  }

  /** Making metadata canonical does not move a chunk: same start, same end, same pages, and the same fields. */
  lemma ViewOfCanon(file: seq<byte>, v: Value)
    requires View(file, v).Some?
    ensures View(file, RT.Canon(v)).Some?
    ensures SameChunk(View(file, v).value, View(file, RT.Canon(v)).value)
  {
    hide FindField, SortFields, RT.CanonFields, Get, Pages;
    var c := View(file, v).value;
    GetInCanon(v.fields, 3);
    GetInCanon(c.cm, 9);
    GetInCanon(c.cm, 11);
    GetInCanon(c.cm, 7);
    forall fid ensures SameField(c.cm, RT.Canon(Struct(c.cm)).fields, fid) { GetInCanon(c.cm, fid); }
    forall fid ensures SameField(v.fields, RT.Canon(v).fields, fid) { GetInCanon(v.fields, fid); }
  }

  /** The chunk found in the reopened file: the moved pages under their edited headers; every offset that named a page names
      the same page, the sizes follow the bytes and the headers, and everything else is what it was. */
  ghost predicate ChunkReopened(was: Chunk, now: Chunk, stats: Option<Value>) {
    && now.pages == NewPages(was.pages, stats) && PagesMoved(was.pages, now.pages, stats)
    && OffsetsFollow(was, now) && SizesFollow(was, now, stats)
    && (forall fid :: !IsOffset(fid) && fid !in {6, 7} && (stats.Some? ==> fid != 12) ==> SameField(was.cm, now.cm, fid))
    && (forall fid :: fid !in {2, 3} ==> SameField(was.fields, now.fields, fid))
    && (stats.Some? ==> Get(now.cm, 12) == Some(RT.Canon(stats.value)))
  }

  lemma IntOfCanon(a: seq<Field>, b: seq<Field>, fid: int)
    requires SameField(a, b, fid)
    ensures IntAt(a, fid).Some? ==> IntAt(b, fid) == IntAt(a, fid)
  {
  }

  lemma MovedReopened(was: Chunk, moved: Chunk, now: Chunk, stats: Option<Value>)
    requires ChunkMoved(was, moved, stats) && SameChunk(moved, now)
    ensures ChunkReopened(was, now, stats)
  {
    hide Get, NewPages, StartOf, RT.Canon, Growth, IntAt, PagesMoved;
    forall fid ensures IntAt(moved.cm, fid).Some? ==> IntAt(now.cm, fid) == IntAt(moved.cm, fid) {
      assert SameField(moved.cm, now.cm, fid);
      IntOfCanon(moved.cm, now.cm, fid);
    }
    assert SameField(moved.cm, now.cm, 9) && SameField(moved.fields, now.fields, 2);
    assert SameField(moved.cm, now.cm, 12);
    forall fid | !IsOffset(fid) && fid !in {6, 7} && (stats.Some? ==> fid != 12) ensures SameField(was.cm, now.cm, fid) {
      assert SameField(moved.cm, now.cm, fid);
    }
    forall fid | fid !in {2, 3} ensures SameField(was.fields, now.fields, fid) {
      assert SameField(moved.fields, now.fields, fid);
    }
  }

  /** Every chunk of the original file is in the file written, at the same place in its metadata, with the same page
      bodies in the same order under the edited headers. */
  lemma PagesSurviveTheRewrite(meta: Value, original: seq<byte>, edited: Value, body: seq<byte>, stats: seq<Value>, i: nat, j: nat)
    requires meta.Struct? && Get(meta.fields, 4).Some? && Get(meta.fields, 4).value.List?
    requires edited.Struct? && Get(edited.fields, 4).Some? && Get(edited.fields, 4).value.List?
    requires GroupsMoved(original, body, Get(meta.fields, 4).value.items, Get(edited.fields, 4).value.items, stats) && PAR1 <= body
    requires RT.Supported(T_STRUCT, edited) && Footer.Close(edited, body).File?
    requires ChunkAt(meta, i, j).Some?
    ensures Footer.Open(Footer.Close(edited, body).data) == Footer.Opened(RT.Canon(edited), body)
    ensures ChunkAt(RT.Canon(edited), i, j).Some? && View(original, ChunkAt(meta, i, j).value).Some?
    ensures var now := View(body, ChunkAt(RT.Canon(edited), i, j).value);
            now.Some? && ChunkReopened(View(original, ChunkAt(meta, i, j).value).value, now.value, StatsFor(stats, j))
  {
    hide FindField, RT.Canon, RT.Supported, View, Footer.Close, Footer.Open, NewPages, ChunkMoved, Get, SameChunk, ChunkReopened;
    Footer.ReopenAfterClose(edited, body);
    ChunkWasMoved(meta, original, edited, body, stats, i, j);
    ChunkInCanon(edited, i, j);
    ViewOfCanon(body, ChunkAt(edited, i, j).value);
    MovedReopened(View(original, ChunkAt(meta, i, j).value).value, View(body, ChunkAt(edited, i, j).value).value,
      View(body, ChunkAt(RT.Canon(edited), i, j).value).value, StatsFor(stats, j));
  }

  lemma ChunkWasMoved(meta: Value, original: seq<byte>, edited: Value, body: seq<byte>, stats: seq<Value>, i: nat, j: nat)
    requires meta.Struct? && Get(meta.fields, 4).Some? && Get(meta.fields, 4).value.List?
    requires edited.Struct? && Get(edited.fields, 4).Some? && Get(edited.fields, 4).value.List?
    requires GroupsMoved(original, body, Get(meta.fields, 4).value.items, Get(edited.fields, 4).value.items, stats)
    requires ChunkAt(meta, i, j).Some?
    ensures ChunkAt(edited, i, j).Some?
    ensures var was, now := View(original, ChunkAt(meta, i, j).value), View(body, ChunkAt(edited, i, j).value);
            was.Some? && now.Some? && ChunkMoved(was.value, now.value, StatsFor(stats, j))
  {
    hide FindField, View, NewPages, OffsetsFollow, SizesFollow, OthersKept;
    var before, after := Get(meta.fields, 4).value.items, Get(edited.fields, 4).value.items;
    assert GroupMoved(original, body, before[i], after[i], stats);
    var chunks, chunks' := Get(before[i].fields, 1).value.items, Get(after[i].fields, 1).value.items;
    assert OneMoved(original, body, chunks[j], chunks'[j], StatsFor(stats, j));
  }

  /** Chunk `j` of group `i` is in the new file, moved as it should be. */
  ghost predicate ChunkSurvives(meta: Value, original: seq<byte>, reopened: Value, body: seq<byte>, stats: seq<Value>, i: nat, j: nat) {
    ChunkAt(meta, i, j).Some? ==>
      && ChunkAt(reopened, i, j).Some? && View(original, ChunkAt(meta, i, j).value).Some?
      && var was, now := View(original, ChunkAt(meta, i, j).value).value, View(body, ChunkAt(reopened, i, j).value);
         now.Some? && ChunkReopened(was, now.value, StatsFor(stats, j))
  }

  /** What the edit asks of the file it is applied to. */
  predicate CanRelocate(meta: Value, original: seq<byte>, stats: seq<Value>) {
    && RT.Supported(T_STRUCT, meta) && MetaTyped(meta, original) && AllStatsOk(stats) && Get(meta.fields, 6).Some?
    && (forall rg :: rg in GroupsOf(meta) ==> GroupReady(original, rg, stats))
    && |MovedBody(meta, original, stats)| <= LIMIT
  }

  /**
   * The whole rewrite: the file is opened, its pages moved, the footer written behind them. Only a footer too long for its
   * length field can stop it; opened again, the new file has every chunk at its place in the metadata, all pages intact, its
   * offsets naming them and its sizes theirs.
   */
  method RelocateAndRewrite(data: seq<byte>, stats: seq<Value>, writer: seq<byte>) returns (r: Footer.Rewritten)
    requires Footer.Open(data).Opened? && CanRelocate(Footer.Open(data).meta, Footer.Open(data).body, stats)
    ensures r.File? || r.TooLong?
    ensures r.File? ==>
      var meta, original := Footer.Open(data).meta, Footer.Open(data).body;
      var edited, body := MovedMetadata(meta, original, stats, writer), MovedBody(meta, original, stats);
      && Footer.Open(r.data) == Footer.Opened(RT.Canon(edited), body)
      && forall i, j :: ChunkSurvives(meta, original, RT.Canon(edited), body, stats, i, j)
  {
    hide RT.Supported, RT.Canon, Footer.Close, Footer.Open, GroupReady, GroupTyped, FindField, MovedGroups, GroupsMoved, ChunkSurvives;
    hide AllStatsOk, MovedMetadata, MovedBody;
    var Opened(meta, original) := Footer.Open(data);
    GroupsAre(meta, original);
    var edited, body := RelocateFile(meta, original, stats, writer);
    MovedMetadataOk(meta, original, stats, writer);
    r := Footer.Close(edited, body);
    Footer.CloseFailsOnlyOnLength(edited, body);
    if r.File? {
      BodyStarts(body);
      Footer.ReopenAfterClose(edited, body);
      forall i, j ensures ChunkSurvives(meta, original, RT.Canon(edited), body, stats, i, j) {
        Survives(meta, original, edited, body, stats, i, j);
      }
    }
  }

  lemma GroupsAre(meta: Value, original: seq<byte>)
    requires MetaTyped(meta, original)
    ensures meta.Struct? && Get(meta.fields, 4).Some? && Get(meta.fields, 4).value.List?
    ensures GroupsOf(meta) == Get(meta.fields, 4).value.items
  {
    hide GroupTyped, FindField;
  }

  lemma BodyStarts(body: seq<byte>)
    requires PAR1 <= body
    ensures |body| >= 4 && body[..4] == Footer.MAGIC
  {
  }

  lemma Survives(meta: Value, original: seq<byte>, edited: Value, body: seq<byte>, stats: seq<Value>, i: nat, j: nat)
    requires meta.Struct? && Get(meta.fields, 4).Some? && Get(meta.fields, 4).value.List?
    requires edited.Struct? && Get(edited.fields, 4).Some? && Get(edited.fields, 4).value.List?
    requires GroupsMoved(original, body, Get(meta.fields, 4).value.items, Get(edited.fields, 4).value.items, stats) && PAR1 <= body
    requires RT.Supported(T_STRUCT, edited) && Footer.Close(edited, body).File?
    ensures ChunkSurvives(meta, original, RT.Canon(edited), body, stats, i, j)
  {
    hide RT.Supported, RT.Canon, Footer.Close, Footer.Open, FindField, GroupsMoved, View, NewPages, Get, ChunkReopened;
    if ChunkAt(meta, i, j).Some? { PagesSurviveTheRewrite(meta, original, edited, body, stats, i, j); }
  }
}
