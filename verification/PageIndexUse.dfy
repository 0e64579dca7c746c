/** What a page index that passes the check is good for: finding the page of a row, and skipping pages by their bounds. */
module PageIndexUse {
  import opened Options
  import opened Thrift
  import opened ThriftGrammar
  import opened Aggregates
  import opened PageIndexCheck
  import Slices

  // ---- Rows and pages ----

  /** Every data page has zero values or more; the column index check sees to that, the offset index check does not. */
  predicate NoNegative(pages: seq<PageInfo>) { forall i :: 0 <= i < |pages| ==> pages[i].values >= 0 }

  lemma {:induction false} RowsGrow(pages: seq<PageInfo>, i: nat, j: nat)
    requires i <= j <= |pages| && NoNegative(pages)
    ensures 0 <= RowsBefore(pages, i) <= RowsBefore(pages, j)
    decreases j
  {
    if i < j { RowsGrow(pages, i, j - 1); } else if i > 0 { RowsGrow(pages, 0, i - 1); }
  }

  predicate Holds(pages: seq<PageInfo>, i: nat, r: int) {
    i < |pages| && RowsBefore(pages, i) <= r < RowsBefore(pages, i + 1)
  }

  lemma {:induction false} PageOfRow(pages: seq<PageInfo>, r: int, n: nat) returns (i: nat)
    requires n <= |pages| && NoNegative(pages) && 0 <= r < RowsBefore(pages, n)
    ensures i < n && Holds(pages, i, r) && forall j: nat :: j < n && j != i ==> !Holds(pages, j, r)
  {
    if RowsBefore(pages, n - 1) <= r {
      i := n - 1;
      forall j: nat | j < n && j != i ensures !Holds(pages, j, r) { RowsGrow(pages, j + 1, i); }
    } else {
      i := PageOfRow(pages, r, n - 1);
    }
  }

  lemma DataPageAt(f: File, pages: seq<PageInfo>, from: int, end: int, to: int, i: nat)
    requires Trail(f, pages, from, end, to) && i < |DataPages(pages)|
    ensures var p := DataPages(pages)[i]; PageAt(f, p.offset) == Some(p) && (p.kind == 0 || p.kind == 3)
  {
    hide PageAt, Trail;
    var p := DataPages(pages)[i];
    assert p in DataPages(pages);
    var k :| 0 <= k < |pages| && pages[k] == p;
    TrailPart(f, pages, from, end, to, k);
  }

  // ---- Finding a row ----

  /** An entry of an offset index: a struct of the page's offset, its size and the number of its first row. */
  predicate EntrySays(entry: Plain, offset: int, size: int, firstRow: int) {
    && entry.PDict? && 1 in entry.dict && entry.dict[1] == PInt(offset)
    && 2 in entry.dict && entry.dict[2] == PInt(size) && 3 in entry.dict && entry.dict[3] == PInt(firstRow)
  }

  /** The entries of an offset index stand in its field 1. */
  predicate EntriesAt(f: File, pos: int, entries: seq<Plain>) {
    match StructAt(f, pos)
    case Got(d, _) => 1 in d && d[1] == PList(entries)
    case Fail(_) => false
  }

  predicate FirstRowOf(entry: Plain, row: int) {
    entry.PDict? && 3 in entry.dict && entry.dict[3] == PInt(row)
  }

  predicate NextRowAfter(entries: seq<Plain>, rows: int, i: nat, row: int) {
    if i + 1 < |entries| then FirstRowOf(entries[i + 1], row) else row == rows
  }

  /** Row `r` lies between the first row of entry `i` and that of the next, or the end of the row group. */
  ghost predicate Covers(entries: seq<Plain>, rows: int, i: nat, r: int) {
    i < |entries| && exists first, next :: FirstRowOf(entries[i], first) && NextRowAfter(entries, rows, i, next) && first <= r < next
  }

  /** In a chunk that passes, the entries of the offset index lead to the page of every row: one entry covers it, and at its
      offset stands a data page of its size that has the rows up to the next entry's. */
  lemma FindRow(f: File, c: Chunk, groupRows: int, rows: seq<Cell>, b: Bounds, requireIndex: bool, pages: seq<PageInfo>, r: int)
    returns (entries: seq<Plain>, i: nat, p: PageInfo, first: int)
    requires Passes(f, c, groupRows, rows, b, requireIndex, pages) && c.offsetIndexAt.Some? && 0 <= r < groupRows
    requires c.columnIndexAt.Some? || NoNegative(DataPages(pages))
    ensures EntriesAt(f, c.offsetIndexAt.value, entries)
    ensures Covers(entries, groupRows, i, r) && forall j: nat :: j != i ==> !Covers(entries, groupRows, j, r)
    ensures EntrySays(entries[i], p.offset, p.size, first) && first <= r < first + p.values
    ensures PageAt(f, p.offset) == Some(p) && (p.kind == 0 || p.kind == 3)
  {
    hide PageAt, StructAt, Trail, DataPages, RowsBefore, ColumnIndexRight, HasDictionary;
    var d := DataPages(pages);
    AllNonNegative(f, c, groupRows, rows, b, requireIndex, pages);
    entries := ListAt(f, c.offsetIndexAt.value, 1).value;
    EntriesStand(f, c.offsetIndexAt.value);
    i := PageOfRow(d, r, |d|);
    p, first := d[i], RowsBefore(d, i);
    DataPageAt(f, pages, StartOf(c), EndOf(c), EndOf(c), i);
    forall j: nat | j < |d|
      ensures EntrySays(entries[j], d[j].offset, d[j].size, RowsBefore(d, j))
      ensures Covers(entries, groupRows, j, r) <==> Holds(d, j, r)
    {
      EntryOfLocation(entries, d, j);
      if j + 1 < |d| { EntryOfLocation(entries, d, j + 1); }
      CoversMeans(entries, d, groupRows, j, r);
    }
    RowsBeforeNext(d, i);
  }

  lemma AllNonNegative(f: File, c: Chunk, groupRows: int, rows: seq<Cell>, b: Bounds, requireIndex: bool, pages: seq<PageInfo>)
    requires Passes(f, c, groupRows, rows, b, requireIndex, pages)
    ensures c.columnIndexAt.Some? ==> NoNegative(DataPages(pages))
  {
    hide LaidOut, OffsetIndexRight, ColumnIndexAt, LengthAt, DataPages, Ordered, PageRows, Bounding, Present;
    if c.columnIndexAt.Some? {
      var ix := ColumnIndexAt(f, c.columnIndexAt.value).value;
      forall i | 0 <= i < |DataPages(pages)| ensures DataPages(pages)[i].values >= 0 { assert PageIndexed(ix, b, rows, DataPages(pages), i); }
    }
  }

  lemma EntriesStand(f: File, pos: int)
    ensures ListAt(f, pos, 1).Some? ==> EntriesAt(f, pos, ListAt(f, pos, 1).value)
  {
    hide StructAt;
  }

  lemma EntryOfLocation(entries: seq<Plain>, pages: seq<PageInfo>, i: nat)
    requires Locates(entries, pages) && i < |pages|
    ensures EntrySays(entries[i], pages[i].offset, pages[i].size, RowsBefore(pages, i))
  {
    LocationSays(entries[i], Location(pages[i].offset, pages[i].size, RowsBefore(pages, i)));
  }

  lemma LocationSays(entry: Plain, l: Location)
    requires LocationIn(entry) == Some(l)
    ensures EntrySays(entry, l.offset, l.size, l.firstRow)
  {
    assert entry.PDict?;
    var d := entry.dict;
    assert IntIn(d, 1) == Some(l.offset) && IntIn(d, 2) == Some(l.size) && IntIn(d, 3) == Some(l.firstRow);
  }

  lemma CoversMeans(entries: seq<Plain>, pages: seq<PageInfo>, rows: int, i: nat, r: int)
    requires |entries| == |pages| && i < |pages| && RowsBefore(pages, |pages|) == rows
    requires EntrySays(entries[i], pages[i].offset, pages[i].size, RowsBefore(pages, i))
    requires i + 1 < |pages| ==> EntrySays(entries[i + 1], pages[i + 1].offset, pages[i + 1].size, RowsBefore(pages, i + 1))
    ensures Covers(entries, rows, i, r) <==> Holds(pages, i, r)
  {
    hide RowsBefore;
    var next := RowsBefore(pages, i + 1);
    assert FirstRowOf(entries[i], RowsBefore(pages, i)) && NextRowAfter(entries, rows, i, next);
  }

  // ---- Skipping pages ----

  /** Numbers by value, texts by their first difference. */
  predicate NotAbove(lo: Cell, v: Cell) {
    && (lo.Num? && v.Num? ==> lo.n <= v.n)
    && (lo.Text? && v.Text? ==> !TextBefore(v.s, lo.s))
  }

  /** Flag, minimum and maximum of page `i`, in fields 1, 2 and 3 of a column index. */
  predicate PageSays(d: map<int, Plain>, i: nat, isNull: bool, min: seq<byte>, max: seq<byte>) {
    && 1 in d && d[1].PList? && i < |d[1].items| && d[1].items[i] == PBool(isNull)
    && 2 in d && d[2].PList? && i < |d[2].items| && d[2].items[i] == PBytes(min)
    && 3 in d && d[3].PList? && i < |d[3].items| && d[3].items[i] == PBytes(max)
  }

  /** The rows of data page `i`: as many as it has values, after those of the data pages before it. */
  function RowsOf(rows: seq<Cell>, d: seq<PageInfo>, i: nat): seq<Cell>
    requires i < |d|
  {
    var first := RowsBefore(d, i);
    if 0 <= first && 0 <= d[i].values && first + d[i].values <= |rows| then rows[first..first + d[i].values] else []
  }

  lemma RowsOfPage(rows: seq<Cell>, d: seq<PageInfo>, i: nat)
    requires i < |d| && NoNegative(d) && RowsBefore(d, |d|) == |rows|
    ensures PageRows(rows, d, i) == RowsOf(rows, d, i) && |RowsOf(rows, d, i)| == d[i].values
  {
    RowsGrow(d, i, i + 1);
    RowsGrow(d, i + 1, |d|);
    RowsBeforeNext(d, i);
    hide RowsBefore;
  }

  /** In a chunk that passes with its column index, a page may be skipped by what the index says of it: the flag is set exactly
      when all its rows are NULL, and no value of it is below the minimum or above the maximum. Bounds that are not truncated
      are values of the page. */
  lemma SkipIsSound(f: File, c: Chunk, rows: seq<Cell>, b: Bounds, requireIndex: bool, pages: seq<PageInfo>, i: nat)
    returns (d: map<int, Plain>, isNull: bool, min: seq<byte>, max: seq<byte>)
    requires Passes(f, c, |rows|, rows, b, requireIndex, pages) && c.columnIndexAt.Some? && i < |DataPages(pages)|
    ensures StructAt(f, c.columnIndexAt.value).Got? && d == StructAt(f, c.columnIndexAt.value).v
    ensures PageSays(d, i, isNull, min, max)
    ensures var cells := RowsOf(rows, DataPages(pages), i);
      && |cells| == DataPages(pages)[i].values
      && (isNull <==> forall v :: v in cells ==> v == Null)
      && (forall v :: v in cells && v != Null ==> NotAbove(b.decode(min), v) && NotAbove(v, b.decode(max)))
      && (!isNull && !b.encloses ==> b.decode(min) in cells && b.decode(max) in cells)
  {
    hide PageAt, StructAt, Trail, DataPages, RowsBefore, OffsetIndexRight, HasDictionary, Ordered, Extreme, Present, RowsOf;
    var ix := ColumnIndexAt(f, c.columnIndexAt.value).value;
    var ds := DataPages(pages);
    d := StructAt(f, c.columnIndexAt.value).v;
    isNull, min, max := ix.nullPages[i], ix.mins[i], ix.maxs[i];
    AllNonNegative(f, c, |rows|, rows, b, requireIndex, pages);
    RowsOfPage(rows, ds, i);
    assert PageIndexed(ix, b, rows, ds, i);
    PageSaysIt(d, ix, i);
    PageBounds(ix, b, rows, ds, i);
  }

  lemma PageSaysIt(d: map<int, Plain>, ix: ColumnIndex, i: nat)
    requires ColumnIndexIn(d) == Some(ix) && i < |ix.nullPages| && i < |ix.mins| && i < |ix.maxs|
    ensures PageSays(d, i, ix.nullPages[i], ix.mins[i], ix.maxs[i])
    ensures 4 in d && d[4] == PInt(ix.order)
  {
  }

  lemma PageBounds(ix: ColumnIndex, b: Bounds, rows: seq<Cell>, ds: seq<PageInfo>, i: nat)
    requires i < |ds| == |ix.nullPages| == |ix.mins| == |ix.maxs| && PageIndexed(ix, b, rows, ds, i)
    ensures var cells := PageRows(rows, ds, i);
      && (ix.nullPages[i] <==> forall v :: v in cells ==> v == Null)
      && (forall v :: v in cells && v != Null ==> NotAbove(b.decode(ix.mins[i]), v) && NotAbove(v, b.decode(ix.maxs[i])))
      && (!ix.nullPages[i] && !b.encloses ==> b.decode(ix.mins[i]) in cells && b.decode(ix.maxs[i]) in cells)
  {
    hide PageRows, Present, Extreme, Less, NotAbove;
    var cells := PageRows(rows, ds, i);
    PresentIff(cells);
    ExtremeIsExtreme(Min, cells);
    ExtremeIsExtreme(Max, cells);
    forall v | v in cells && v != Null
      ensures NotAbove(b.decode(ix.mins[i]), v) && NotAbove(v, b.decode(ix.maxs[i]))
    {
      var lo, hi := Extreme(Min, cells), Extreme(Max, cells);
      assert AtMost(lo, v) && AtMost(v, hi);
      LessOrder(lo, lo);
      LessOrder(hi, hi);
      AtMostChain(b.decode(ix.mins[i]), lo, v);
      AtMostChain(v, hi, b.decode(ix.maxs[i]));
      AtMostMeans(b.decode(ix.mins[i]), v);
      AtMostMeans(v, b.decode(ix.maxs[i]));
    }
  }

  lemma AtMostMeans(x: Key, y: Key)
    requires AtMost(x, y)
    ensures NotAbove(x, y)
  {
    if x.Text? && y.Text? { TextLessIff(y.s, x.s); }
  }

  lemma {:induction false} PresentIff(column: seq<Cell>)
    ensures Present(column) == 0 <==> forall v :: v in column ==> v == Null
  {
    if column != [] {
      var front, last := column[..|column| - 1], column[|column| - 1];
      PresentIff(front);
      assert last in column && forall v :: v in front ==> v in column;
      if Present(column) == 0 {
        forall v | v in column ensures v == Null { assert v in front || v == last; }
      }
    }
  }

  /** Where the index declares an order, of every two pages with values the earlier one's bounds are not above the later one's
      (1) or not below them (2), so that a search may halve the pages. */
  lemma DeclaredOrder(f: File, c: Chunk, rows: seq<Cell>, b: Bounds, requireIndex: bool, pages: seq<PageInfo>, i: nat, j: nat)
    returns (d: map<int, Plain>, low: (seq<byte>, seq<byte>), high: (seq<byte>, seq<byte>))
    requires Passes(f, c, |rows|, rows, b, requireIndex, pages) && c.columnIndexAt.Some? && i < j < |DataPages(pages)|
    ensures StructAt(f, c.columnIndexAt.value).Got? && d == StructAt(f, c.columnIndexAt.value).v && 4 in d && d[4].PInt?
    ensures PageSays(d, i, false, low.0, low.1) && PageSays(d, j, false, high.0, high.1) ==>
      && (d[4].n == 1 ==> NotAbove(b.decode(low.0), b.decode(high.0)) && NotAbove(b.decode(low.1), b.decode(high.1)))
      && (d[4].n == 2 ==> NotAbove(b.decode(high.0), b.decode(low.0)) && NotAbove(b.decode(high.1), b.decode(low.1)))
    ensures exists x, y :: PageSays(d, i, x, low.0, low.1) && PageSays(d, j, y, high.0, high.1)
  {
    hide PageAt, StructAt, Trail, DataPages, RowsBefore, OffsetIndexRight, HasDictionary, Extreme, Present, Less, PageRows;
    var ix := ColumnIndexAt(f, c.columnIndexAt.value).value;
    var ds := DataPages(pages);
    d := StructAt(f, c.columnIndexAt.value).v;
    low, high := (ix.mins[i], ix.maxs[i]), (ix.mins[j], ix.maxs[j]);
    PageSaysIt(d, ix, i);
    PageSaysIt(d, ix, j);
    if PageSays(d, i, false, low.0, low.1) && PageSays(d, j, false, high.0, high.1) {
      assert PageIndexed(ix, b, rows, ds, i) && PageIndexed(ix, b, rows, ds, j);
      if ix.order == 1 { BeforeMeans(ix, b, i, j); }
      if ix.order == 2 { BeforeMeans(ix, b, j, i); }
    }
  }

  lemma BeforeMeans(ix: ColumnIndex, b: Bounds, i: nat, j: nat)
    requires |ix.mins| == |ix.maxs| && i < |ix.mins| && j < |ix.mins| && Before(ix, b, i, j)
    ensures NotAbove(b.decode(ix.mins[i]), b.decode(ix.mins[j])) && NotAbove(b.decode(ix.maxs[i]), b.decode(ix.maxs[j]))
  {
    AtMostMeans(b.decode(ix.mins[i]), b.decode(ix.mins[j]));
    AtMostMeans(b.decode(ix.maxs[i]), b.decode(ix.maxs[j]));
  }
}
