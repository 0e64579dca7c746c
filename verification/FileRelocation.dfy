/** The relocation of whole files: column chunks, row groups and the offsets and sizes recorded for them. What
    the loops do is stated chunk by chunk and group by group, over the bytes of the original and of the new file. */
module FileRelocation {
  import opened Options
  import opened Thrift
  import opened ThriftReader
  import opened PageRelocation
  import RT = ThriftRoundTrip
  import Slices

  const PAR1: seq<byte> := [80, 65, 82, 49]

  // ---- What the metadata says about a chunk ----

  /** A column chunk as its metadata describes it: the chunk's fields, its column metadata's, and the pages they name. */
  datatype Chunk = Chunk(fields: seq<Field>, cm: seq<Field>, start: nat, end: nat, pages: seq<Page>)

  /** The first of the data page offset (9) and the dictionary page offset (11). */
  function StartOffset(cm: seq<Field>): Option<int> {
    match (IntAt(cm, 9), IntAt(cm, 11))
    case (Some(d), Some(c)) => Some(if d <= c then d else c)
    case (Some(d), None) => if Get(cm, 11).None? then Some(d) else None
    case _ => None
  }

  /** The chunk that `v` describes in `file`, when its bytes are pages from its first offset on. */
  function View(file: seq<byte>, v: Value): Option<Chunk> {
    match v
    case Struct(fields) =>
      (match Get(fields, 3)
       case Some(Struct(cm)) =>
         (match (StartOffset(cm), IntAt(cm, 7))
          case (Some(start), Some(total)) =>
            if 0 <= start && 0 <= total && start + total <= |file| && Pages(file[start..start + total]).Some?
            then Some(Chunk(fields, cm, start, start + total, Pages(file[start..start + total]).value))
            else None
          case _ => None)
       case _ => None)
    case _ => None
  }

  /** A chunk is found wherever its column metadata (field 3) gives a data page offset (9) and a length (7) that pages fill: from
      that offset, or from the dictionary page offset (11) when there is one and it is lower. */
  lemma ChunkIsFound(file: seq<byte>, fields: seq<Field>, cm: seq<Field>, data: int, dictionary: Option<int>, start: nat, end: nat)
    requires Get(fields, 3) == Some(Struct(cm)) && Get(cm, 9) == Some(Int(data))
    requires Get(cm, 11) == if dictionary.Some? then Some(Int(dictionary.value)) else None
    requires start == (if dictionary.Some? && dictionary.value < data then dictionary.value else data)
    requires start <= end <= |file| && Get(cm, 7) == Some(Int(end - start)) && Pages(file[start..end]).Some?
    ensures View(file, Struct(fields)) == Some(Chunk(fields, cm, start, end, Pages(file[start..end]).value))
  {
    hide Pages, Get;
    assert IntAt(cm, 9) == Some(data) && IntAt(cm, 7) == Some(end - start) && IntAt(cm, 11) == dictionary;
    hide IntAt;
  }

  /** The offsets a chunk may have: data page 9, index page 10, dictionary page 11. */
  predicate IsOffset(fid: int) { fid == 9 || fid == 10 || fid == 11 }

  predicate NamesPage(c: Chunk, fid: int) {
    IntAt(c.cm, fid).Some? && exists k :: 0 <= k < |c.pages| && IntAt(c.cm, fid).value == c.start + StartOf(c.pages, k)
  }

  /** What the edit needs of a chunk: the fields it assigns, and both start offsets naming pages. */
  predicate Ready(c: Chunk, stats: Option<Value>) {
    && Get(c.fields, 2).Some? && IntAt(c.cm, 6).Some?
    && (stats.Some? ==> Get(c.cm, 12).Some? && forall p :: p in c.pages ==> Poisonable(p.header))
    && NamesPage(c, 9) && (Get(c.cm, 11).Some? ==> NamesPage(c, 11))
    && (Get(c.cm, 10).Some? ==> IntAt(c.cm, 10).Some?)
  }

  // ---- The move of one chunk ----

  /** Every offset that named a page names the same page after the move. */
  ghost predicate OffsetsFollow(before: Chunk, after: Chunk) {
    |after.pages| == |before.pages| &&
    forall fid, k :: IsOffset(fid) && 0 <= k < |before.pages| && IntAt(before.cm, fid) == Some(before.start + StartOf(before.pages, k))
      ==> IntAt(after.cm, fid) == Some(after.start + StartOf(after.pages, k))
  }

  /** The byte length is the moved pages' own, and the uncompressed size grew by exactly what the headers did. */
  predicate SizesFollow(before: Chunk, after: Chunk, stats: Option<Value>) {
    && IntAt(after.cm, 7) == Some(StartOf(after.pages, |after.pages|))
    && IntAt(before.cm, 6).Some? && IntAt(after.cm, 6) == Some(IntAt(before.cm, 6).value + Growth(before.pages, stats))
    && Get(after.fields, 2) == Get(after.cm, 9)
  }

  /** Nothing else changed. */
  ghost predicate OthersKept(before: Chunk, after: Chunk, stats: Option<Value>) {
    && (stats.Some? ==> Get(after.cm, 12) == stats)
    && (forall fid :: !IsOffset(fid) && fid !in {6, 7} && (stats.Some? ==> fid != 12) ==> Get(after.cm, fid) == Get(before.cm, fid))
    && (forall fid :: fid !in {2, 3} ==> Get(after.fields, fid) == Get(before.fields, fid))
  }

  /** `after` is `before` moved: the same pages under edited headers, found from its own metadata. */
  ghost predicate ChunkMoved(before: Chunk, after: Chunk, stats: Option<Value>) {
    && after.pages == NewPages(before.pages, stats) && PagesMoved(before.pages, after.pages, stats)
    && OffsetsFollow(before, after) && SizesFollow(before, after, stats) && OthersKept(before, after, stats)
  }

  datatype Offsets = Offsets(data: Option<int>, index: Option<int>, dict: Option<int>)

  function OffsetsOf(cm: seq<Field>): Offsets {
    Offsets(IntAt(cm, 9), IntAt(cm, 10), IntAt(cm, 11))
  }

  function OffsetAt(o: Offsets, fid: int): Option<int> {
    if fid == 9 then o.data else if fid == 10 then o.index else if fid == 11 then o.dict else None
  }

  /** The page at `pos` is about to be written at `out`: every offset that named it now names its new place. */
  function MoveHere(cm: seq<Field>, o: Offsets, pos: int, out: int): seq<Field> {
    var cm1 := if o.data == Some(pos) then Set(cm, 9, Int(out)) else cm;
    var cm2 := if o.index == Some(pos) then Set(cm1, 10, Int(out)) else cm1;
    if o.dict == Some(pos) then Set(cm2, 11, Int(out)) else cm2
  }

  function MoveAll(cm: seq<Field>, o: Offsets, pos: int, out: int, pages: seq<Page>, stats: Option<Value>): seq<Field>
    decreases |pages|
  {
    if pages == [] then cm
    else MoveAll(MoveHere(cm, o, pos, out), o, pos + Size(pages[0]), out + Size(NewPage(pages[0], stats)), pages[1..], stats)
  }

  lemma MoveHereSets(cm: seq<Field>, o: Offsets, pos: int, out: int, fid: int)
    requires Get(cm, fid).Some? || OffsetAt(o, fid) != Some(pos)
    ensures Get(MoveHere(cm, o, pos, out), fid) == if OffsetAt(o, fid) == Some(pos) then Some(Int(out)) else Get(cm, fid)
  {
    hide Get, Set;
    var cm1 := if o.data == Some(pos) then Set(cm, 9, Int(out)) else cm;
    var cm2 := if o.index == Some(pos) then Set(cm1, 10, Int(out)) else cm1;
    GetSet(cm, 9, Int(out), fid);
    GetSet(cm1, 10, Int(out), fid);
    GetSet(cm2, 11, Int(out), fid);
  }

  /** After the loop over all pages an offset holds the new start of the page it named, or what it held before. */
  lemma {:induction false} MoveAllSets(cm: seq<Field>, o: Offsets, pos: int, out: int, pages: seq<Page>, stats: Option<Value>, fid: int)
    requires forall p :: p in pages ==> Size(p) >= 1
    requires OffsetAt(o, fid).Some? ==> Get(cm, fid).Some?
    ensures Get(MoveAll(cm, o, pos, out, pages, stats), fid) ==
            if OffsetAt(o, fid).Some? && Moved(OffsetAt(o, fid).value, pos, out, pages, stats).Some?
            then Some(Int(Moved(OffsetAt(o, fid).value, pos, out, pages, stats).value)) else Get(cm, fid)
    decreases |pages|
  {
    hide Get, MoveHere, NewPage;
    if pages != [] {
      assert pages[0] in pages;
      MoveHereSets(cm, o, pos, out, fid);
      var pos', out' := pos + Size(pages[0]), out + Size(NewPage(pages[0], stats));
      MoveAllSets(MoveHere(cm, o, pos, out), o, pos', out', pages[1..], stats, fid);
      if OffsetAt(o, fid) == Some(pos) { PassedPages(pos, pos', out', pages[1..], stats); }
    }
  }

  lemma {:induction false} PassedPages(was: int, pos: int, out: int, pages: seq<Page>, stats: Option<Value>)
    requires was < pos && forall p :: p in pages ==> Size(p) >= 1
    ensures Moved(was, pos, out, pages, stats) == None
    decreases |pages|
  {
    hide NewPage;
    if pages != [] {
      PassedPages(was, pos + Size(pages[0]), out + Size(NewPage(pages[0], stats)), pages[1..], stats);
    }
  }

  /** The column metadata after the move of a chunk whose pages start at `start` to `out`. */
  function MovedMeta(cm: seq<Field>, start: int, out: int, pages: seq<Page>, stats: Option<Value>): seq<Field> {
    var cm1 := if stats.Some? then Set(cm, 12, stats.value) else cm;
    var cm2 := MoveAll(cm1, OffsetsOf(cm), start, out, pages, stats);
    var cm3 := Set(cm2, 7, Int(|Rewritten(pages, stats)|));
    Set(cm3, 6, Int((match IntAt(cm, 6) case Some(n) => n case None => 0) + Growth(pages, stats)))
  }

  function MovedChunk(c: Chunk, out: int, stats: Option<Value>): Value {
    var cm := MovedMeta(c.cm, c.start, out, c.pages, stats);
    var fields := Set(c.fields, 3, Struct(cm));
    Struct(Set(fields, 2, match Get(cm, 9) case Some(v) => v case None => Int(0)))
  }

  lemma MovedMetaFields(c: Chunk, out: int, stats: Option<Value>, fid: int)
    requires forall p :: p in c.pages ==> Size(p) >= 1
    requires IntAt(c.cm, 6).Some? && IntAt(c.cm, 7).Some? && (stats.Some? ==> Get(c.cm, 12).Some?)
    ensures Get(MovedMeta(c.cm, c.start, out, c.pages, stats), fid) ==
            if fid == 6 then Some(Int(IntAt(c.cm, 6).value + Growth(c.pages, stats)))
            else if fid == 7 then Some(Int(|Rewritten(c.pages, stats)|))
            else if fid == 12 && stats.Some? then stats
            else if IsOffset(fid) && IntAt(c.cm, fid).Some? && Moved(IntAt(c.cm, fid).value, c.start, out, c.pages, stats).Some?
            then Some(Int(Moved(IntAt(c.cm, fid).value, c.start, out, c.pages, stats).value))
            else Get(c.cm, fid)
  {
    hide Set, Rewritten, Growth, Moved, MoveAll, FindField;
    var cm1 := if stats.Some? then Set(c.cm, 12, stats.value) else c.cm;
    var o := OffsetsOf(c.cm);
    forall id ensures Get(cm1, id) == if id == 12 && stats.Some? then stats else Get(c.cm, id) {
      if stats.Some? { GetSet(c.cm, 12, stats.value, id); }
    }
    var cm2 := MoveAll(cm1, o, c.start, out, c.pages, stats);
    MoveAllSets(cm1, o, c.start, out, c.pages, stats, fid);
    MoveAllSets(cm1, o, c.start, out, c.pages, stats, 7);
    MoveAllSets(cm1, o, c.start, out, c.pages, stats, 6);
    var cm3 := Set(cm2, 7, Int(|Rewritten(c.pages, stats)|));
    GetSet(cm2, 7, Int(|Rewritten(c.pages, stats)|), fid);
    GetSet(cm2, 7, Int(|Rewritten(c.pages, stats)|), 6);
    GetSet(cm3, 6, Int(IntAt(c.cm, 6).value + Growth(c.pages, stats)), fid);
  }

  // ---- The loop over one chunk's pages ----

  method RelocatePages(original: seq<byte>, start: nat, end: nat, offsets: Offsets, stats: Option<Value>,
                       cm0: seq<Field>, body0: seq<byte>, ghost c: Chunk)
    returns (cm: seq<Field>, body: seq<byte>, delta: int)
    requires start == c.start && end == c.end && offsets == OffsetsOf(c.cm)
    requires c.end <= |original| && c.start <= c.end && Pages(original[c.start..c.end]) == Some(c.pages)
    requires forall p :: p in c.pages ==> PageOk(p, stats)
    requires StatsOk(stats)
    ensures body == body0 + Rewritten(c.pages, stats)
    ensures cm == MoveAll(cm0, OffsetsOf(c.cm), c.start, |body0|, c.pages, stats)
    ensures delta == Growth(c.pages, stats)
  {
    hide Halfway, PageOk, MoveHere, NewHeader, PageAt;
    var pos := start;
    ghost var left := c.pages;
    cm, body, delta := cm0, body0, 0;
    StartMoving(original, c, stats, cm0, body0);
    while pos < end
      invariant start <= pos <= end
      invariant Halfway(original, c, stats, cm0, body0, pos, left, cm, body, delta)
    {
      NextPage(original, c, stats, cm0, body0, pos, left, cm, body, delta);
      cm, body, delta, pos := MovePage(original, pos, end, stats, offsets, left[0], cm, body, delta);
      left := left[1..];
    }
    AllMoved(original, c, stats, cm0, body0, pos, left, cm, body, delta);
  }

  /** The pages `left` from `pos` on are still to be moved, and moving them finishes the chunk. */
  ghost predicate Halfway(original: seq<byte>, c: Chunk, stats: Option<Value>, cm0: seq<Field>, body0: seq<byte>,
                          pos: nat, left: seq<Page>, cm: seq<Field>, body: seq<byte>, delta: int) {
    && pos <= c.end <= |original|
    && Pages(original[pos..c.end]) == Some(left) && (forall p :: p in left ==> PageOk(p, stats))
    && body0 + Rewritten(c.pages, stats) == body + Rewritten(left, stats)
    && delta + Growth(left, stats) == Growth(c.pages, stats)
    && MoveAll(cm, OffsetsOf(c.cm), pos, |body|, left, stats) == MoveAll(cm0, OffsetsOf(c.cm), c.start, |body0|, c.pages, stats)
  }

  lemma StartMoving(original: seq<byte>, c: Chunk, stats: Option<Value>, cm0: seq<Field>, body0: seq<byte>)
    requires c.start <= c.end <= |original| && Pages(original[c.start..c.end]) == Some(c.pages)
    requires forall p :: p in c.pages ==> PageOk(p, stats)
    ensures Halfway(original, c, stats, cm0, body0, c.start, c.pages, cm0, body0, 0)
  {
    hide Pages, PageOk, Rewritten, Growth, MoveAll;
  }

  lemma NextPage(original: seq<byte>, c: Chunk, stats: Option<Value>, cm0: seq<Field>, body0: seq<byte>,
                 pos: nat, left: seq<Page>, cm: seq<Field>, body: seq<byte>, delta: int)
    requires pos < c.end && Halfway(original, c, stats, cm0, body0, pos, left, cm, body, delta)
    ensures left != [] && c.end <= |original| && PageAt(original[pos..c.end]) == Some(left[0]) && PageOk(left[0], stats)
    ensures pos + Size(left[0]) <= c.end
    ensures Halfway(original, c, stats, cm0, body0, pos + Size(left[0]), left[1..],
                    MoveHere(cm, OffsetsOf(c.cm), pos, |body|), body + (NewHeader(left[0], stats) + left[0].body),
                    delta + |NewHeader(left[0], stats)| - left[0].headLen)
  {
    hide Pages, PageAt, PageOk, Rewritten, Growth, MoveAll, MoveHere, NewHeader;
    SomePagesLeft(original, pos, c.end, left);
    assert left[0] in left;
    StepBytes(body0, body, c.pages, left, stats, NewHeader(left[0], stats) + left[0].body);
    StepPages(cm, OffsetsOf(c.cm), pos, |body|, left, stats, NewHeader(left[0], stats) + left[0].body);
  }

  lemma AllMoved(original: seq<byte>, c: Chunk, stats: Option<Value>, cm0: seq<Field>, body0: seq<byte>,
                 pos: nat, left: seq<Page>, cm: seq<Field>, body: seq<byte>, delta: int)
    requires pos == c.end && Halfway(original, c, stats, cm0, body0, pos, left, cm, body, delta)
    ensures body == body0 + Rewritten(c.pages, stats) && delta == Growth(c.pages, stats)
    ensures cm == MoveAll(cm0, OffsetsOf(c.cm), c.start, |body0|, c.pages, stats)
  {
    NoPagesLeft(original, pos, left, stats, cm, OffsetsOf(c.cm), |body|);
    assert body + [] == body;
  }

  /** One turn of the loop: the page `p` at `pos`. */
  method MovePage(original: seq<byte>, pos: nat, end: nat, stats: Option<Value>, offsets: Offsets, ghost p: Page,
                  cm: seq<Field>, body: seq<byte>, delta: int)
    returns (cm': seq<Field>, body': seq<byte>, delta': int, pos': nat)
    requires pos < end <= |original| && PageAt(original[pos..end]) == Some(p) && PageOk(p, stats) && StatsOk(stats)
    ensures cm' == MoveHere(cm, offsets, pos, |body|)
    ensures body' == body + (NewHeader(p, stats) + p.body)
    ensures delta' == delta + |NewHeader(p, stats)| - p.headLen
    ensures pos' == pos + Size(p) <= end
  {
    hide ReadValue, ReadFields, PageAt, PageOk, MoveHere, NewHeader;
    var reader := new Reader(original[pos..end]);
    assert reader.Rest() == original[pos..end];
    PageFromReader(original[pos..end], p);
    var header := reader.ReadAny(T_STRUCT);
    var n := IntAt(header.v.fields, 3).value;
    cm' := MoveHere(cm, offsets, pos, |body|);
    var encoded := EncodeHeader(p, header.v.fields, stats);
    PageBytes(original, pos, end, reader.pos, n);
    body' := body + (encoded + original[pos + reader.pos..pos + reader.pos + n]);
    delta' := delta + |encoded| - reader.pos;
    pos' := pos + reader.pos + n;
  }

  /** The bytes of an edited header. */
  method EncodeHeader(ghost p: Page, fields: seq<Field>, stats: Option<Value>) returns (encoded: seq<byte>)
    requires p.header == fields && PageOk(p, stats) && StatsOk(stats)
    ensures encoded == NewHeader(p, stats)
  {
    hide WriteValue, RT.Supported, Poison;
    PoisonSupported(fields, stats);
    RT.RoundTrip(T_STRUCT, Struct(Poison(fields, stats)), []);
    encoded := WriteValue(T_STRUCT, Struct(Poison(fields, stats))).bytes;
  }

  lemma PageFromReader(s: seq<byte>, p: Page)
    requires PageAt(s) == Some(p)
    ensures ReadValue(T_STRUCT, s) == Got(Struct(p.header), p.headLen)
    ensures IntAt(p.header, 3) == Some(|p.body|) && p.headLen + |p.body| <= |s|
    ensures p.body == s[p.headLen..p.headLen + |p.body|] && p.headLen >= 1
  {
    hide ReadFields, ReadValue, PageAt, IntAt;
    StructReadsFields(s);
    PageParts(s, p, ReadFields(0, s));
  }

  lemma PageParts(s: seq<byte>, p: Page, r: Read<seq<Field>>)
    requires PageAt(s) == Some(p) && r == ReadFields(0, s)
    ensures r == Got(p.header, p.headLen) && IntAt(p.header, 3) == Some(|p.body|)
    ensures p.headLen + |p.body| <= |s| && p.body == s[p.headLen..p.headLen + |p.body|] && p.headLen >= 1
  {
    hide ReadFields, RT.Supported, IntAt, PageAt;
    FieldsUseTheStop(0, s);
    var n := PageCut(s, p, r);
    CutLength(s, r.used, n);
  }

  lemma PageCut(s: seq<byte>, p: Page, r: Read<seq<Field>>) returns (n: nat)
    requires PageAt(s) == Some(p) && r == ReadFields(0, s)
    ensures r.Got? && IntAt(r.v, 3) == Some(n) && r.used + n <= |s| && p == Page(r.v, r.used, s[r.used..r.used + n])
  {
    hide ReadFields, RT.Supported, IntAt;
    n := IntAt(r.v, 3).value;
  }

  lemma CutLength(s: seq<byte>, a: nat, n: nat)
    requires a + n <= |s|
    ensures |s[a..a + n]| == n
  {
  }

  lemma SomePagesLeft(original: seq<byte>, pos: nat, end: nat, left: seq<Page>)
    requires pos < end <= |original| && Pages(original[pos..end]) == Some(left)
    ensures left != [] && PageAt(original[pos..end]) == Some(left[0]) && pos + Size(left[0]) <= end
    ensures Pages(original[pos + Size(left[0])..end]) == Some(left[1..])
  {
    hide PageAt;
    var s := original[pos..end];
    var p := PageAt(s).value;
    assert left == [p] + Pages(s[Size(p)..]).value;
    assert s[Size(p)..] == original[pos + Size(p)..end];
  }

  lemma PageBytes(original: seq<byte>, pos: nat, end: nat, head: nat, n: nat)
    requires pos + head + n <= end <= |original|
    ensures original[pos..end][head..head + n] == original[pos + head..pos + head + n]
  {
    Slices.SliceOfSlice(original, pos, end, head, head + n);
  }

  lemma StepBytes(body0: seq<byte>, body: seq<byte>, pages: seq<Page>, left: seq<Page>, stats: Option<Value>, page: seq<byte>)
    requires left != [] && body0 + Rewritten(pages, stats) == body + Rewritten(left, stats)
    requires page == NewHeader(left[0], stats) + left[0].body
    ensures body0 + Rewritten(pages, stats) == (body + page) + Rewritten(left[1..], stats)
  {
    hide NewHeader;
    Slices.Assoc(body, page, Rewritten(left[1..], stats));
  }

  lemma StepPages(cm: seq<Field>, o: Offsets, pos: int, out: int, left: seq<Page>, stats: Option<Value>, page: seq<byte>)
    requires left != [] && page == NewHeader(left[0], stats) + left[0].body
    ensures MoveAll(cm, o, pos, out, left, stats)
         == MoveAll(MoveHere(cm, o, pos, out), o, pos + Size(left[0]), out + |page|, left[1..], stats)
    ensures Growth(left, stats) == |NewHeader(left[0], stats)| - left[0].headLen + Growth(left[1..], stats)
  {
    hide NewHeader, MoveHere;
  }

  lemma NoPagesLeft(original: seq<byte>, pos: nat, left: seq<Page>, stats: Option<Value>, cm: seq<Field>, o: Offsets, out: int)
    requires pos <= |original| && Pages(original[pos..pos]) == Some(left)
    ensures left == [] && Rewritten(left, stats) == [] && Growth(left, stats) == 0
    ensures MoveAll(cm, o, pos, out, left, stats) == cm
  {
  }

  // ---- One chunk moves as a whole ----

  lemma MovedFields(c: Chunk, out: int, stats: Option<Value>, fid: int)
    requires forall p :: p in c.pages ==> PageOk(p, stats)
    requires IntAt(c.cm, 6).Some? && IntAt(c.cm, 7).Some? && (stats.Some? ==> Get(c.cm, 12).Some?)
    ensures var cm := MovedMeta(c.cm, c.start, out, c.pages, stats);
            && (fid == 6 ==> IntAt(cm, fid) == Some(IntAt(c.cm, 6).value + Growth(c.pages, stats)))
            && (fid == 7 ==> IntAt(cm, fid) == Some(|Rewritten(c.pages, stats)|))
            && (fid == 12 && stats.Some? ==> Get(cm, fid) == stats)
            && (!IsOffset(fid) && fid !in {6, 7} && (stats.Some? ==> fid != 12) ==> Get(cm, fid) == Get(c.cm, fid))
            && (IsOffset(fid) && Get(c.cm, fid).None? ==> Get(cm, fid).None?)
  {
    hide MovedMeta, Rewritten, Growth, Moved, FindField, Get;
    PagesHaveSize(c.pages, stats);
    MovedMetaFields(c, out, stats, fid);
  }

  lemma PagesHaveSize(pages: seq<Page>, stats: Option<Value>)
    requires forall p :: p in pages ==> PageOk(p, stats)
    ensures forall p :: p in pages ==> Size(p) >= 1
  {
  }

  /** An offset that named page `k` of the chunk names page `k` after the move. */
  lemma MovedOffset(c: Chunk, out: int, stats: Option<Value>, fid: int, k: nat)
    requires forall p :: p in c.pages ==> PageOk(p, stats)
    requires IntAt(c.cm, 6).Some? && IntAt(c.cm, 7).Some? && (stats.Some? ==> Get(c.cm, 12).Some?)
    requires IsOffset(fid) && k < |c.pages| && IntAt(c.cm, fid) == Some(c.start + StartOf(c.pages, k))
    ensures IntAt(MovedMeta(c.cm, c.start, out, c.pages, stats), fid) == Some(out + StartOf(NewPages(c.pages, stats), k))
  {
    hide MovedMeta, Rewritten, Growth, Moved, FindField, Get, NewPages, PageOk, StartOf;
    PagesHaveSize(c.pages, stats);
    MovedMetaFields(c, out, stats, fid);
    MovedNamesSamePage(k, c.start, out, c.pages, stats);
  }

  lemma {:induction false} FirstPageOnly(pages: seq<Page>, k: nat)
    requires k < |pages| && StartOf(pages, k) == 0 && forall p :: p in pages ==> Size(p) >= 1
    ensures k == 0
  {
    if k > 0 { assert pages[0] in pages; }
  }

  /** The first page of the moved chunk is where its metadata says it starts. */
  lemma MovedStart(c: Chunk, out: int, stats: Option<Value>)
    requires (forall p :: p in c.pages ==> PageOk(p, stats)) && Ready(c, stats) && IntAt(c.cm, 7).Some?
    requires StartOffset(c.cm) == Some(c.start)
    ensures StartOffset(MovedMeta(c.cm, c.start, out, c.pages, stats)) == Some(out)
  {
    hide MovedMeta, FindField, NewPages, PageOk, Poisonable, StartOf;
    var cm := MovedMeta(c.cm, c.start, out, c.pages, stats);
    PagesHaveSize(c.pages, stats);
    var k :| 0 <= k < |c.pages| && IntAt(c.cm, 9).value == c.start + StartOf(c.pages, k);
    MovedOffset(c, out, stats, 9, k);
    MovedFields(c, out, stats, 11);
    StartOfZero(NewPages(c.pages, stats));
    if Get(c.cm, 11).Some? {
      var l :| 0 <= l < |c.pages| && IntAt(c.cm, 11).value == c.start + StartOf(c.pages, l);
      MovedOffset(c, out, stats, 11, l);
      if IntAt(c.cm, 11).value == c.start { FirstPageOnly(c.pages, l); } else { FirstPageOnly(c.pages, k); }
    } else {
      FirstPageOnly(c.pages, k);
    }
  }

  lemma StartOfZero(pages: seq<Page>)
    ensures StartOf(pages, 0) == 0
  {
  }

  /** The moved chunk, found from its own metadata in any file that has the moved bytes at `out`, is the chunk moved. */
  lemma MoveOneChunk(original: seq<byte>, v: Value, c: Chunk, stats: Option<Value>, file: seq<byte>, out: nat)
    requires View(original, v) == Some(c) && Ready(c, stats) && StatsOk(stats)
    requires out + |Rewritten(c.pages, stats)| <= |file| && file[out..out + |Rewritten(c.pages, stats)|] == Rewritten(c.pages, stats)
    ensures View(file, MovedChunk(c, out, stats)).Some?
    ensures var after := View(file, MovedChunk(c, out, stats)).value;
            ChunkMoved(c, after, stats) && after.start == out && after.end == out + |Rewritten(c.pages, stats)|
  {
    hide MovedMeta, MovedChunk, NewPages, Rewritten, PageOk, Ready, View, ChunkMoved, FindField, Pages, StartOffset, StartOf, Get;
    hide IsOffset, StatsOk, PagesOk, PagesMoved;
    ViewReady(original, v, c, stats);
    MovedStart(c, out, stats);
    ReadyFields(c, stats);
    MovedFields(c, out, stats, 7);
    PagesOfRewritten(c.pages, stats);
    MovedDataOffset(c, out, stats);
    MovedChunkFields(c, out, stats);
    var fields := MovedChunk(c, out, stats).fields;
    var cm := MovedMeta(c.cm, c.start, out, c.pages, stats);
    ViewBuilds(file, fields, cm, out, Rewritten(c.pages, stats));
    ChunkHasMoved(c, Chunk(fields, cm, out, out + |Rewritten(c.pages, stats)|, NewPages(c.pages, stats)), stats);
  }

  lemma MovedDataOffset(c: Chunk, out: int, stats: Option<Value>)
    requires (forall p :: p in c.pages ==> PageOk(p, stats)) && Ready(c, stats) && IntAt(c.cm, 7).Some?
    ensures Get(MovedMeta(c.cm, c.start, out, c.pages, stats), 9).Some?
  {
    hide MovedMeta, NewPages, PageOk, FindField, StartOf, Poisonable;
    var k :| 0 <= k < |c.pages| && IntAt(c.cm, 9).value == c.start + StartOf(c.pages, k);
    MovedOffset(c, out, stats, 9, k);
  }

  lemma ReadyFields(c: Chunk, stats: Option<Value>)
    requires Ready(c, stats)
    ensures Get(c.fields, 2).Some? && IntAt(c.cm, 6).Some? && (stats.Some? ==> Get(c.cm, 12).Some?)
  {
    hide Poisonable, FindField, StartOf;
  }

  lemma ViewBuilds(file: seq<byte>, fields: seq<Field>, cm: seq<Field>, out: nat, bytes: seq<byte>)
    requires Get(fields, 3) == Some(Struct(cm)) && StartOffset(cm) == Some(out) && IntAt(cm, 7) == Some(|bytes|)
    requires out + |bytes| <= |file| && file[out..out + |bytes|] == bytes && Pages(bytes).Some?
    ensures View(file, Struct(fields)) == Some(Chunk(fields, cm, out, out + |bytes|, Pages(bytes).value))
  {
    hide FindField, Pages, StartOffset;
  }

  lemma ChunkHasMoved(c: Chunk, after: Chunk, stats: Option<Value>)
    requires (forall p :: p in c.pages ==> PageOk(p, stats)) && Get(c.fields, 2).Some? && Get(c.fields, 3).Some?
    requires IntAt(c.cm, 6).Some? && IntAt(c.cm, 7).Some? && (stats.Some? ==> Get(c.cm, 12).Some?)
    requires PagesMoved(c.pages, after.pages, stats)
    requires after.pages == NewPages(c.pages, stats) && after.cm == MovedMeta(c.cm, c.start, after.start, c.pages, stats)
    requires MovedChunk(c, after.start, stats) == Struct(after.fields) && Get(after.cm, 9).Some?
    ensures ChunkMoved(c, after, stats)
  {
    hide MovedMeta, MovedChunk, NewPages, Rewritten, PageOk, FindField, StartOf, Growth, Get, PagesMoved;
    MovedChunkFields(c, after.start, stats);
    RewrittenLength(c.pages, stats);
    MovedFields(c, after.start, stats, 6);
    MovedFields(c, after.start, stats, 7);
    MovedFields(c, after.start, stats, 12);
    assert SizesFollow(c, after, stats) by { NewPagesCount(c.pages, stats); }
    assert OffsetsFollow(c, after) by {
      NewPagesCount(c.pages, stats);
      forall fid, k | IsOffset(fid) && 0 <= k < |c.pages| && IntAt(c.cm, fid) == Some(c.start + StartOf(c.pages, k))
        ensures IntAt(after.cm, fid) == Some(after.start + StartOf(after.pages, k))
      {
        MovedOffset(c, after.start, stats, fid, k);
      }
    }
    forall fid | !IsOffset(fid) && fid !in {6, 7} && (stats.Some? ==> fid != 12) ensures Get(after.cm, fid) == Get(c.cm, fid) {
      MovedFields(c, after.start, stats, fid);
    }
  }

  lemma NewPagesCount(pages: seq<Page>, stats: Option<Value>)
    ensures |NewPages(pages, stats)| == |pages|
  {
  }

  lemma ViewReady(original: seq<byte>, v: Value, c: Chunk, stats: Option<Value>)
    requires View(original, v) == Some(c) && Ready(c, stats)
    ensures PagesOk(c.pages, stats) && (forall p :: p in c.pages ==> PageOk(p, stats))
    ensures StartOffset(c.cm) == Some(c.start) && IntAt(c.cm, 7) == Some(c.end - c.start)
    ensures c.start <= c.end <= |original| && Pages(original[c.start..c.end]) == Some(c.pages)
    ensures v == Struct(c.fields) && Get(c.fields, 3) == Some(Struct(c.cm))
  {
    hide Pages, PageOk, Poisonable, NamesPage, FindField;
    ReadPagesOk(original[c.start..c.end], stats);
  }

  lemma MovedChunkFields(c: Chunk, out: int, stats: Option<Value>)
    requires Get(c.fields, 2).Some? && Get(c.fields, 3).Some?
    requires Get(MovedMeta(c.cm, c.start, out, c.pages, stats), 9).Some?
    ensures var cm := MovedMeta(c.cm, c.start, out, c.pages, stats);
            var v := MovedChunk(c, out, stats);
            && v.Struct? && Get(v.fields, 3) == Some(Struct(cm)) && Get(v.fields, 2) == Get(cm, 9)
            && (forall fid :: fid !in {2, 3} ==> Get(v.fields, fid) == Get(c.fields, fid))
  {
    hide MovedMeta, FindField, Get, Set;
    var cm := MovedMeta(c.cm, c.start, out, c.pages, stats);
    var fields := Set(c.fields, 3, Struct(cm));
    var first := Get(cm, 9).value;
    forall fid ensures Get(Set(fields, 2, first), fid) ==
                       if fid == 2 then Some(first) else if fid == 3 then Some(Struct(cm)) else Get(c.fields, fid)
    {
      GetSet(c.fields, 3, Struct(cm), fid);
      GetSet(c.fields, 3, Struct(cm), 2);
      GetSet(fields, 2, first, fid);
    }
  }

  method RelocateChunk(original: seq<byte>, v: Value, ghost c: Chunk, stats: Option<Value>, body0: seq<byte>)
    returns (moved: Value, body: seq<byte>, rawSize: int)
    requires View(original, v) == Some(c) && Ready(c, stats) && StatsOk(stats)
    ensures moved == MovedChunk(c, |body0|, stats)
    ensures body == body0 + Rewritten(c.pages, stats)
    ensures IntAt(c.cm, 6).Some? && rawSize == IntAt(c.cm, 6).value + Growth(c.pages, stats)
  {
    hide Pages, PageOk, Poisonable, NamesPage, FindField, MoveAll, Rewritten, Growth;
    ViewReady(original, v, c, stats);
    var cm := Get(v.fields, 3).value.fields;
    var start := StartOffset(cm).value;
    var end := start + IntAt(cm, 7).value;
    var cm1 := if stats.Some? then Set(cm, 12, stats.value) else cm;
    var cm2, delta;
    cm2, body, delta := RelocatePages(original, start, end, OffsetsOf(cm), stats, cm1, body0, c);
    var cm3 := Set(cm2, 7, Int(|body| - |body0|));
    rawSize := IntAt(cm, 6).value + delta;
    var cm4 := Set(cm3, 6, Int(rawSize));
    moved := Struct(Set(Set(v.fields, 3, Struct(cm4)), 2, match Get(cm4, 9) case Some(x) => x case None => Int(0)));
  }

  // ---- Row groups and the whole file ----

  /** The first columns have statistics to replace. */
  function StatsFor(stats: seq<Value>, ci: nat): Option<Value> {
    if ci < |stats| then Some(stats[ci]) else None
  }

  predicate AllStatsOk(stats: seq<Value>) {
    forall x :: x in stats ==> StatsOk(Some(x))
  }

  predicate ChunksReady(original: seq<byte>, chunks: seq<Value>, stats: seq<Value>) {
    forall ci :: 0 <= ci < |chunks| ==> View(original, chunks[ci]).Some? && Ready(View(original, chunks[ci]).value, StatsFor(stats, ci))
  }

  ghost predicate OneMoved(original: seq<byte>, file: seq<byte>, before: Value, after: Value, stats: Option<Value>) {
    View(original, before).Some? && View(file, after).Some? && ChunkMoved(View(original, before).value, View(file, after).value, stats)
  }

  ghost predicate ChunksMoved(original: seq<byte>, file: seq<byte>, before: seq<Value>, after: seq<Value>, stats: seq<Value>) {
    |before| == |after| && forall ci :: 0 <= ci < |before| ==> OneMoved(original, file, before[ci], after[ci], StatsFor(stats, ci))
  }

  /** The uncompressed size a moved chunk records. */
  function RawSize(v: Value): int {
    match v
    case Struct(fields) =>
      (match Get(fields, 3)
       case Some(Struct(cm)) => (match IntAt(cm, 6) case Some(n) => n case None => 0)
       case _ => 0)
    case _ => 0
  }

  function RawTotal(chunks: seq<Value>): int {
    if chunks == [] then 0 else RawTotal(chunks[..|chunks| - 1]) + RawSize(chunks[|chunks| - 1])
  }

  /** Bytes appended to a file do not change what its chunks are. */
  lemma ViewExtends(file: seq<byte>, more: seq<byte>, v: Value)
    requires View(file, v).Some?
    ensures View(file + more, v) == View(file, v)
  {
    hide Pages, FindField, StartOffset;
    var c := View(file, v).value;
    SliceExtends(file, more, c.start, c.end);
  }

  lemma SliceExtends(file: seq<byte>, more: seq<byte>, a: nat, b: nat)
    requires a <= b <= |file|
    ensures (file + more)[a..b] == file[a..b]
  {
  }

  lemma ChunksExtend(original: seq<byte>, file: seq<byte>, more: seq<byte>, before: seq<Value>, after: seq<Value>, stats: seq<Value>)
    requires ChunksMoved(original, file, before, after, stats)
    ensures ChunksMoved(original, file + more, before, after, stats)
  {
    hide View, ChunkMoved;
    forall ci | 0 <= ci < |before| ensures OneMoved(original, file + more, before[ci], after[ci], StatsFor(stats, ci)) {
      assert OneMoved(original, file, before[ci], after[ci], StatsFor(stats, ci));
      ViewExtends(file, more, after[ci]);
    }
  }

  /** One more chunk at the end. */
  lemma ChunkJoins(original: seq<byte>, chunks: seq<Value>, stats: seq<Value>, ci: nat, body: seq<byte>, done: seq<Value>, moved: Value, body': seq<byte>)
    requires ChunksReady(original, chunks, stats) && AllStatsOk(stats) && ci < |chunks|
    requires ChunksMoved(original, body, chunks[..ci], done, stats)
    requires moved == MovedChunk(View(original, chunks[ci]).value, |body|, StatsFor(stats, ci))
    requires body' == body + Rewritten(View(original, chunks[ci]).value.pages, StatsFor(stats, ci))
    ensures ChunksMoved(original, body', chunks[..ci + 1], done + [moved], stats)
    ensures RawSize(moved) == RawSize(chunks[ci]) + Growth(View(original, chunks[ci]).value.pages, StatsFor(stats, ci))
  {
    hide View, ChunkMoved, Ready, MovedChunk, Rewritten, Growth, RawSize;
    var c := View(original, chunks[ci]).value;
    var stat := StatsFor(stats, ci);
    assert stat.Some? ==> stat.value in stats;
    var bytes := Rewritten(c.pages, stat);
    ChunksExtend(original, body, bytes, chunks[..ci], done, stats);
    assert body'[|body|..|body| + |bytes|] == bytes;
    MoveOneChunk(original, chunks[ci], c, stat, body', |body|);
    assert OneMoved(original, body', chunks[ci], moved, stat);
    forall i | 0 <= i < ci + 1 ensures OneMoved(original, body', chunks[..ci + 1][i], (done + [moved])[i], StatsFor(stats, i)) {
      if i < ci {
        assert OneMoved(original, body', chunks[..ci][i], done[i], StatsFor(stats, i));
      }
    }
    RawSizes(original, body', chunks[ci], moved, stat);
  }

  lemma RawSizes(original: seq<byte>, file: seq<byte>, before: Value, after: Value, stats: Option<Value>)
    requires OneMoved(original, file, before, after, stats)
    ensures RawSize(after) == RawSize(before) + Growth(View(original, before).value.pages, stats)
  {
    hide Pages, FindField, StartOffset, OffsetsFollow, OthersKept, NewPages, Growth;
  }

  /** One row group: its chunks moved, its total the sum of the uncompressed sizes they now record. */
  ghost predicate GroupMoved(original: seq<byte>, file: seq<byte>, before: Value, after: Value, stats: seq<Value>) {
    && before.Struct? && after.Struct? && Get(before.fields, 1).Some? && Get(before.fields, 1).value.List?
    && Get(after.fields, 1).Some? && Get(after.fields, 1).value.List?
    && var chunks, chunks' := Get(before.fields, 1).value.items, Get(after.fields, 1).value.items;
    && ChunksMoved(original, file, chunks, chunks', stats)
    && IntAt(after.fields, 2) == Some(RawTotal(chunks'))
    && (forall fid :: fid !in {1, 2} ==> Get(after.fields, fid) == Get(before.fields, fid))
  }

  predicate GroupReady(original: seq<byte>, rg: Value, stats: seq<Value>) {
    && rg.Struct? && Get(rg.fields, 2).Some?
    && match Get(rg.fields, 1) case Some(List(_, chunks)) => ChunksReady(original, chunks, stats) case _ => false
  }

  /** Values moved so far, and the new body behind them. */
  datatype Placed = Placed(items: seq<Value>, body: seq<byte>)

  function MovedChunks(original: seq<byte>, chunks: seq<Value>, stats: seq<Value>, n: nat, body0: seq<byte>): (r: Placed)
    requires n <= |chunks|
    ensures |r.items| == n
  {
    if n == 0 then Placed([], body0)
    else
      var before := MovedChunks(original, chunks, stats, n - 1, body0);
      match View(original, chunks[n - 1])
      case None => Placed(before.items + [chunks[n - 1]], before.body)
      case Some(c) =>
        var stat := StatsFor(stats, n - 1);
        Placed(before.items + [MovedChunk(c, |before.body|, stat)], before.body + Rewritten(c.pages, stat))
  }

  function ChunksOf(rg: Value): seq<Value> {
    match rg
    case Struct(fields) => (match Get(fields, 1) case Some(List(_, chunks)) => chunks case _ => [])
    case _ => []
  }

  /** The row group after the move. */
  function MovedGroup(original: seq<byte>, rg: Value, stats: seq<Value>, body0: seq<byte>): Value {
    match rg
    case Struct(fields) =>
      (match Get(fields, 1)
       case Some(List(et, chunks)) =>
         var done := MovedChunks(original, chunks, stats, |chunks|, body0).items;
         Struct(Set(Set(fields, 1, List(et, done)), 2, Int(RawTotal(done))))
       case _ => rg)
    case _ => rg
  }

  function BodyAfter(original: seq<byte>, rg: Value, stats: seq<Value>, body0: seq<byte>): seq<byte> {
    MovedChunks(original, ChunksOf(rg), stats, |ChunksOf(rg)|, body0).body
  }

  function MovedGroups(original: seq<byte>, groups: seq<Value>, stats: seq<Value>, n: nat): (r: Placed)
    requires n <= |groups|
    ensures |r.items| == n
  {
    if n == 0 then Placed([], PAR1)
    else
      var before := MovedGroups(original, groups, stats, n - 1);
      Placed(before.items + [MovedGroup(original, groups[n - 1], stats, before.body)],
        BodyAfter(original, groups[n - 1], stats, before.body))
  }

  lemma NoChunksMoved(original: seq<byte>, chunks: seq<Value>, stats: seq<Value>, body0: seq<byte>)
    ensures MovedChunks(original, chunks, stats, 0, body0) == Placed([], body0)
  {
  }

  lemma NoGroupsMoved(original: seq<byte>, groups: seq<Value>, stats: seq<Value>)
    ensures MovedGroups(original, groups, stats, 0) == Placed([], PAR1)
  {
  }

  lemma OneChunkMore(original: seq<byte>, chunks: seq<Value>, stats: seq<Value>, n: nat, body0: seq<byte>)
    requires n < |chunks| && View(original, chunks[n]).Some?
    ensures var before, c := MovedChunks(original, chunks, stats, n, body0), View(original, chunks[n]).value;
      MovedChunks(original, chunks, stats, n + 1, body0)
      == Placed(before.items + [MovedChunk(c, |before.body|, StatsFor(stats, n))], before.body + Rewritten(c.pages, StatsFor(stats, n)))
  {
    hide View, MovedChunk, Rewritten;
  }

  lemma OneGroupMore(original: seq<byte>, groups: seq<Value>, stats: seq<Value>, n: nat)
    requires n < |groups|
    ensures var before := MovedGroups(original, groups, stats, n);
      MovedGroups(original, groups, stats, n + 1)
      == Placed(before.items + [MovedGroup(original, groups[n], stats, before.body)], BodyAfter(original, groups[n], stats, before.body))
  {
    hide MovedGroup, BodyAfter;
  }

  method RelocateGroup(original: seq<byte>, rg: Value, stats: seq<Value>, body0: seq<byte>) returns (moved: Value, body: seq<byte>)
    requires GroupReady(original, rg, stats) && AllStatsOk(stats)
    ensures GroupMoved(original, body, rg, moved, stats)
    ensures moved == MovedGroup(original, rg, stats, body0) && body == BodyAfter(original, rg, stats, body0)
    ensures body0 <= body
  {
    hide View, Ready, MovedChunk, Rewritten, Growth, FindField, RawSize, OneMoved, MovedChunks;
    var chunks := Get(rg.fields, 1).value.items;
    NoChunksMoved(original, chunks, stats, body0);
    var done: seq<Value>, total := [], 0;
    body := body0;
    for ci := 0 to |chunks|
      invariant ChunksMoved(original, body, chunks[..ci], done, stats) && total == RawTotal(done) && body0 <= body
      invariant MovedChunks(original, chunks, stats, ci, body0) == Placed(done, body)
    {
      OneChunkMore(original, chunks, stats, ci, body0);
      ghost var c := View(original, chunks[ci]).value;
      var stat := StatsFor(stats, ci);
      assert stat.Some? ==> stat.value in stats;
      ghost var before := body;
      var chunk, raw;
      chunk, body, raw := RelocateChunk(original, chunks[ci], c, stat, body);
      ChunkJoins(original, chunks, stats, ci, before, done, chunk, body);
      RawSizeOf(original, chunks[ci], c);
      assert (done + [chunk])[..|done|] == done;
      done, total := done + [chunk], total + raw;
    }
    assert chunks[..|chunks|] == chunks;
    moved := Struct(Set(Set(rg.fields, 1, Get(rg.fields, 1).value.(items := done)), 2, Int(total)));
    SetTwo(rg.fields, 1, Get(rg.fields, 1).value.(items := done), 2, Int(total));
  }

  lemma RawSizeOf(original: seq<byte>, v: Value, c: Chunk)
    requires View(original, v) == Some(c)
    ensures RawSize(v) == match IntAt(c.cm, 6) case Some(n) => n case None => 0
  {
    hide Pages, FindField, StartOffset;
  }

  lemma SetTwo(fields: seq<Field>, a: int, x: Value, b: int, y: Value)
    requires a != b && Get(fields, a).Some? && Get(fields, b).Some?
    ensures forall fid :: Get(Set(Set(fields, a, x), b, y), fid) ==
                          if fid == b then Some(y) else if fid == a then Some(x) else Get(fields, fid)
  {
    hide Get, Set;
    forall fid ensures Get(Set(Set(fields, a, x), b, y), fid) ==
                       if fid == b then Some(y) else if fid == a then Some(x) else Get(fields, fid)
    {
      GetSet(fields, a, x, fid);
      GetSet(fields, a, x, b);
      GetSet(Set(fields, a, x), b, y, fid);
    }
  }

  ghost predicate GroupsMoved(original: seq<byte>, file: seq<byte>, before: seq<Value>, after: seq<Value>, stats: seq<Value>) {
    |before| == |after| && forall i :: 0 <= i < |before| ==> GroupMoved(original, file, before[i], after[i], stats)
  }

  lemma GroupsExtend(original: seq<byte>, file: seq<byte>, longer: seq<byte>, before: seq<Value>, after: seq<Value>, stats: seq<Value>)
    requires GroupsMoved(original, file, before, after, stats) && file <= longer
    ensures GroupsMoved(original, longer, before, after, stats)
  {
    hide View, ChunkMoved, FindField, ChunksMoved;
    assert longer == file + longer[|file|..];
    forall i | 0 <= i < |before| ensures GroupMoved(original, longer, before[i], after[i], stats) {
      assert GroupMoved(original, file, before[i], after[i], stats);
      ChunksExtend(original, file, longer[|file|..], Get(before[i].fields, 1).value.items, Get(after[i].fields, 1).value.items, stats);
    }
  }

  function GroupsOf(meta: Value): seq<Value> {
    match meta
    case Struct(fields) => (match Get(fields, 4) case Some(List(_, groups)) => groups case _ => [])
    case _ => []
  }

  function MovedBody(meta: Value, original: seq<byte>, stats: seq<Value>): seq<byte> {
    MovedGroups(original, GroupsOf(meta), stats, |GroupsOf(meta)|).body
  }

  /** The metadata after the whole edit. */
  function MovedMetadata(meta: Value, original: seq<byte>, stats: seq<Value>, writer: seq<byte>): Value {
    match meta
    case Struct(fields) =>
      (match Get(fields, 4)
       case Some(List(et, groups)) =>
         Struct(Set(Set(fields, 4, List(et, MovedGroups(original, groups, stats, |groups|).items)), 6, Bytes(writer)))
       case _ => meta)
    case _ => meta
  }

  /** The whole edit: all row groups moved behind the magic, the writer's name replaced, the rest of the metadata kept. */
  method RelocateFile(meta: Value, original: seq<byte>, stats: seq<Value>, writer: seq<byte>) returns (edited: Value, body: seq<byte>)
    requires meta.Struct? && Get(meta.fields, 6).Some? && AllStatsOk(stats)
    requires match Get(meta.fields, 4) case Some(List(_, groups)) => forall rg :: rg in groups ==> GroupReady(original, rg, stats) case _ => false
    ensures edited.Struct? && Get(edited.fields, 4).Some? && Get(edited.fields, 4).value.List?
    ensures GroupsMoved(original, body, Get(meta.fields, 4).value.items, Get(edited.fields, 4).value.items, stats)
    ensures edited == MovedMetadata(meta, original, stats, writer) && body == MovedBody(meta, original, stats)
    ensures Get(edited.fields, 6) == Some(Bytes(writer))
    ensures forall fid :: fid !in {4, 6} ==> Get(edited.fields, fid) == Get(meta.fields, fid)
    ensures PAR1 <= body
  {
    hide FindField, GroupReady, GroupMoved, MovedGroups, MovedGroup, BodyAfter;
    var groups := Get(meta.fields, 4).value.items;
    NoGroupsMoved(original, groups, stats);
    var done: seq<Value> := [];
    body := PAR1;
    for i := 0 to |groups|
      invariant GroupsMoved(original, body, groups[..i], done, stats) && PAR1 <= body
      invariant MovedGroups(original, groups, stats, i) == Placed(done, body)
    {
      OneGroupMore(original, groups, stats, i);
      assert groups[i] in groups;
      ghost var before := body;
      var rg;
      rg, body := RelocateGroup(original, groups[i], stats, body);
      GroupsExtend(original, before, body, groups[..i], done, stats);
      done := done + [rg];
    }
    assert groups[..|groups|] == groups;
    var list := Get(meta.fields, 4).value.(items := done);
    edited := Struct(Set(Set(meta.fields, 4, list), 6, Bytes(writer)));
    SetTwo(meta.fields, 4, list, 6, Bytes(writer));
  }
}
