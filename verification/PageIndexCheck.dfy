/** The page index checker: what a column chunk that passes it is guaranteed to look like. */
module PageIndexCheck {
  import opened Options
  import opened Thrift
  import opened ThriftGrammar
  import opened Aggregates
  import Bits
  import Slices

  datatype PageInfo = PageInfo(kind: int, offset: int, size: int, values: int)

  datatype Location = Location(offset: int, size: int, firstRow: int)

  const DATA_PAGE := 0
  const DICTIONARY_PAGE := 2
  const DATA_PAGE_V2 := 3

  // ---- Headers ----

  /** An integer under a field id. */
  function IntIn(dict: map<int, Plain>, fid: int): Option<int> {
    if fid in dict && dict[fid].PInt? then Some(dict[fid].n) else None
  }

  /** What Python takes for false. */
  predicate Falsy(p: Plain) {
    match p
    case PBool(b) => !b
    case PInt(n) => n == 0
    case PBytes(s) => s == []
    case PDouble(raw) => |raw| == 8 && raw[..7] == [0, 0, 0, 0, 0, 0, 0] && (raw[7] == 0 || raw[7] == 128)
    case PList(items) => items == []
    case PMap(entries) => entries == []
    case PDict(dict) => dict == map[]
  }

  /** The kind-specific header: the first of fields 5, 8 and 7 that is not empty. */
  function Specific(dict: map<int, Plain>): Plain {
    if 5 in dict && !Falsy(dict[5]) then dict[5]
    else if 8 in dict && !Falsy(dict[8]) then dict[8]
    else if 7 in dict && !Falsy(dict[7]) then dict[7]
    else PDict(map[])
  }

  /** How many values a page holds: field 1 of its kind-specific header, 0 when that is absent. */
  function ValueCount(dict: map<int, Plain>): Option<int> {
    match Specific(dict)
    case PDict(inner) => if 1 in inner then IntIn(inner, 1) else Some(0)
    case _ => None
  }

  /** What Python's negative indices give: a struct read from a position before the file, counted from its end. */
  type FromEnd = b: int -> Read<map<int, Plain>> | forall pos :: b(pos).Got? ==> b(pos).used > 0
    witness (pos: int) => Fail(IndexError)

  datatype File = File(data: seq<byte>, fromEnd: FromEnd)

  /** The struct at `pos`. */
  function StructAt(f: File, pos: int): (r: Read<map<int, Plain>>)
    ensures r.Got? ==> r.used > 0 && -|f.data| <= pos <= |f.data|
  {
    if pos < -|f.data| || pos > |f.data| then Fail(IndexError)
    else if pos < 0 then f.fromEnd(pos)
    else
      StructUsesBytes(map[], 0, f.data[pos..]);
      CompactFields(map[], 0, f.data[pos..])
  }

  lemma {:induction false} StructUsesBytes(out: map<int, Plain>, last: int, s: seq<byte>)
    ensures CompactFields(out, last, s).Got? ==> CompactFields(out, last, s).used > 0
  {
    hide Compact;
    if s != [] && s[0] != 0 { HeadInside(last, s); }
  }

  /** The page whose header starts at `pos`: its size is that of its header and its compressed size together. */
  function PageAt(f: File, pos: int): Option<PageInfo> {
    match StructAt(f, pos)
    case Fail(_) => None
    case Got(h, used) =>
      if IntIn(h, 1).None? || IntIn(h, 3).None? || ValueCount(h).None? then None
      else Some(PageInfo(IntIn(h, 1).value, pos, used + IntIn(h, 3).value, ValueCount(h).value))
  }

  /** The compressed size that the header at `pos` gives: a signed number, which nothing checks. */
  function CompressedSize(f: File, pos: int): Option<int> {
    match StructAt(f, pos)
    case Fail(_) => None
    case Got(h, _) => IntIn(h, 3)
  }

  lemma AtOffset(f: File, pos: int)
    ensures PageAt(f, pos).Some? ==> PageAt(f, pos).value.offset == pos && -|f.data| <= pos
    ensures PageAt(f, pos).Some? && CompressedSize(f, pos).value >= 0 ==> PageAt(f, pos).value.size > 0
  {
    hide CompactFields, ValueCount;
  }

  // ---- The walk ----

  /** The pages walked from `from` to `to`, each begun before `end`. */
  predicate Trail(f: File, pages: seq<PageInfo>, from: int, end: int, to: int) {
    if pages == [] then from == to
    else
      var p := pages[|pages| - 1];
      p.offset < end && p.offset + p.size == to && PageAt(f, p.offset) == Some(p) && Trail(f, pages[..|pages| - 1], from, end, p.offset)
  }

  /** Where the walk stands after `n` pages, if it comes so far. */
  function PosAfter(f: File, start: int, end: int, n: nat): Option<int> {
    if n == 0 then Some(start)
    else
      match PosAfter(f, start, end, n - 1)
      case None => None
      case Some(pos) =>
        if pos < end && PageAt(f, pos).Some? then Some(pos + PageAt(f, pos).value.size) else None
  }

  ghost predicate NeverEnds(f: File, start: int, end: int) {
    forall n: nat :: PosAfter(f, start, end, n).Some?
  }

  ghost predicate Finishes(f: File, start: int, end: int) {
    exists pages, stop :: Trail(f, pages, start, end, stop) && stop >= end
  }

  /** Walked past the last byte; a header that cannot be read; or a walk that goes on for ever. */
  datatype Walked = Pages(pages: seq<PageInfo>, stop: int) | Unreadable | Endless

  lemma TrailMore(f: File, pages: seq<PageInfo>, from: int, end: int, pos: int)
    requires Trail(f, pages, from, end, pos) && pos < end && PageAt(f, pos).Some?
    ensures Trail(f, pages + [PageAt(f, pos).value], from, end, pos + PageAt(f, pos).value.size)
  {
    AtOffset(f, pos);
    hide PageAt;
    assert (pages + [PageAt(f, pos).value])[..|pages|] == pages;
  }

  /** A walk has one course. */
  lemma {:induction false} TrailIs(f: File, pages: seq<PageInfo>, from: int, end: int, to: int)
    requires Trail(f, pages, from, end, to)
    ensures PosAfter(f, from, end, |pages|) == Some(to)
  {
    hide PageAt;
    if pages != [] { TrailIs(f, pages[..|pages| - 1], from, end, pages[|pages| - 1].offset); }
  }

  lemma {:induction false} PosBefore(f: File, from: int, end: int, m: nat, n: nat)
    requires m <= n && PosAfter(f, from, end, n).Some?
    ensures PosAfter(f, from, end, m).Some?
    ensures m < n ==> PosAfter(f, from, end, m).value < end && PageAt(f, PosAfter(f, from, end, m).value).Some?
    decreases n
  {
    hide PageAt;
    if m + 1 < n { PosBefore(f, from, end, m, n - 1); }
  }

  lemma {:induction false} SameTrail(f: File, a: seq<PageInfo>, b: seq<PageInfo>, from: int, end: int, to: int)
    requires |a| == |b| && Trail(f, a, from, end, to)
    requires exists stop :: Trail(f, b, from, end, stop)
    ensures a == b
  {
    hide PageAt;
    var stop :| Trail(f, b, from, end, stop);
    TrailIs(f, a, from, end, to);
    TrailIs(f, b, from, end, stop);
    if a != [] {
      var n := |a| - 1;
      TrailIs(f, a[..n], from, end, a[n].offset);
      TrailIs(f, b[..n], from, end, b[n].offset);
      SameTrail(f, a[..n], b[..n], from, end, a[n].offset);
      assert a == a[..n] + [a[n]] && b == b[..n] + [b[n]];
    }
  }

  /** A finished walk is the only one. */
  lemma OneFinish(f: File, a: seq<PageInfo>, b: seq<PageInfo>, from: int, end: int, x: int, y: int)
    requires Trail(f, a, from, end, x) && x >= end && Trail(f, b, from, end, y) && y >= end
    ensures a == b && x == y
  {
    hide PageAt, Trail;
    TrailIs(f, a, from, end, x);
    TrailIs(f, b, from, end, y);
    if |a| < |b| { PosBefore(f, from, end, |a|, |b|); }
    if |b| < |a| { PosBefore(f, from, end, |b|, |a|); }
    SameTrail(f, a, b, from, end, x);
  }

  /** A walk that comes to an unreadable header does not finish. */
  lemma UnreadableEnds(f: File, pages: seq<PageInfo>, from: int, end: int, pos: int)
    requires Trail(f, pages, from, end, pos) && pos < end && PageAt(f, pos).None?
    ensures !Finishes(f, from, end) && !NeverEnds(f, from, end)
  {
    hide PageAt, Trail;
    TrailIs(f, pages, from, end, pos);
    assert PosAfter(f, from, end, |pages| + 1).None?;
    if Finishes(f, from, end) {
      var ps, stop :| Trail(f, ps, from, end, stop) && stop >= end;
      TrailIs(f, ps, from, end, stop);
      if |ps| > |pages| { PosBefore(f, from, end, |pages|, |ps|); }
      if |ps| < |pages| { PosBefore(f, from, end, |ps|, |pages|); }
    }
  }

  lemma FinishedEnds(f: File, pages: seq<PageInfo>, from: int, end: int, stop: int)
    requires Trail(f, pages, from, end, stop) && stop >= end
    ensures Finishes(f, from, end) && !NeverEnds(f, from, end)
  {
    hide PageAt, Trail;
    TrailIs(f, pages, from, end, stop);
    assert PosAfter(f, from, end, |pages| + 1).None?;
  }

  /** From the same position the walk goes on in the same way. */
  lemma {:induction false} SameFromHere(f: File, from: int, end: int, m: nat, n: nat, k: nat)
    requires PosAfter(f, from, end, m) == PosAfter(f, from, end, n)
    ensures PosAfter(f, from, end, m + k) == PosAfter(f, from, end, n + k)
  {
    hide PageAt;
    if k > 0 { SameFromHere(f, from, end, m, n, k - 1); }
  }

  /** A walk that comes to a position for the second time never ends. */
  lemma {:induction false} RepeatsForever(f: File, from: int, end: int, m: nat, n: nat, k: nat)
    requires m < n && PosAfter(f, from, end, m) == PosAfter(f, from, end, n) && PosAfter(f, from, end, n).Some?
    ensures PosAfter(f, from, end, k).Some?
    decreases k
  {
    hide PosAfter;
    if k <= n {
      PosBefore(f, from, end, k, n);
    } else {
      RepeatsForever(f, from, end, m, n, m + (k - n));
      SameFromHere(f, from, end, m, n, k - n);
    }
  }

  predicate Visited(pages: seq<PageInfo>, pos: int) {
    exists k :: 0 <= k < |pages| && pages[k].offset == pos
  }

  lemma VisitedMore(pages: seq<PageInfo>, p: PageInfo)
    ensures Visited(pages + [p], p.offset)
    ensures forall pos :: Visited(pages, pos) ==> Visited(pages + [p], pos)
  {
    var more := pages + [p];
    assert more[|pages|] == p;
    forall pos | Visited(pages, pos) ensures Visited(more, pos) {
      var k :| 0 <= k < |pages| && pages[k].offset == pos;
      assert more[k] == pages[k];
    }
  }

  lemma NeverEndsAgain(f: File, pages: seq<PageInfo>, from: int, end: int, pos: int)
    requires Trail(f, pages, from, end, pos) && Visited(pages, pos)
    ensures NeverEnds(f, from, end) && !Finishes(f, from, end)
  {
    hide PageAt, Trail, PosAfter;
    var k :| 0 <= k < |pages| && pages[k].offset == pos;
    TrailIs(f, pages, from, end, pos);
    TrailPart(f, pages, from, end, pos, k);
    TrailIs(f, pages[..k], from, end, pos);
    forall n: nat ensures PosAfter(f, from, end, n).Some? { RepeatsForever(f, from, end, k, |pages|, n); }
    if Finishes(f, from, end) {
      var ps, stop :| Trail(f, ps, from, end, stop) && stop >= end;
      FinishedEnds(f, ps, from, end, stop);
    }
  }

  lemma {:induction false} TrailPart(f: File, pages: seq<PageInfo>, from: int, end: int, to: int, k: nat)
    requires Trail(f, pages, from, end, to) && k < |pages|
    ensures Trail(f, pages[..k], from, end, pages[k].offset) && pages[k].offset < end
    ensures PageAt(f, pages[k].offset) == Some(pages[k])
  {
    hide PageAt;
    var front := pages[..|pages| - 1];
    if k < |front| {
      TrailPart(f, front, from, end, pages[|front|].offset, k);
      assert front[..k] == pages[..k];
    }
  }

  // ---- When the walk never ends ----

  /** How many positions a header can be read at before `end`. */
  function Room(f: File, end: int): nat {
    if end > -|f.data| then end + |f.data| else 0
  }

  /** The walk goes on after one page more than there are positions. */
  predicate StillWalking(f: File, start: int, end: int) {
    PosAfter(f, start, end, Room(f, end) + 1).Some?
  }

  predicate MeetsAgain(f: File, start: int, end: int, m: nat, n: nat) {
    m < n && PosAfter(f, start, end, n).Some? && PosAfter(f, start, end, m) == PosAfter(f, start, end, n)
  }

  /** Distinct integers in a range are no more than the range holds. */
  lemma {:induction false} DistinctFit(s: seq<int>, lo: int, hi: int)
    requires forall i :: 0 <= i < |s| ==> lo <= s[i] < hi
    requires forall i, j :: 0 <= i < j < |s| ==> s[i] != s[j]
    ensures |s| <= if lo < hi then hi - lo else 0
    decreases hi - lo
  {
    if s != [] {
      assert lo <= s[0] < hi;
      if k :| 0 <= k < |s| && s[k] == hi - 1 {
        var rest := s[..k] + s[k + 1..];
        DistinctFit(rest, lo, hi - 1);
      } else {
        DistinctFit(s, lo, hi - 1);
      }
    }
  }

  /** Where a page was walked from lies before `end`, and no further before the file than it is long. */
  lemma WalkedFrom(f: File, start: int, end: int, m: nat, n: nat)
    requires m < n && PosAfter(f, start, end, n).Some?
    ensures PosAfter(f, start, end, m).Some? && -|f.data| <= PosAfter(f, start, end, m).value < end
  {
    hide PageAt, PosAfter;
    PosBefore(f, start, end, m, n);
    AtOffset(f, PosAfter(f, start, end, m).value);
  }

  /** More pages than positions: one of them was met twice. */
  lemma TooManyPages(f: File, start: int, end: int) returns (m: nat, n: nat)
    requires StillWalking(f, start, end)
    ensures MeetsAgain(f, start, end, m, n)
  {
    hide PosAfter;
    var steps := Room(f, end) + 1;
    forall i: nat | i < steps ensures PosAfter(f, start, end, i).Some? && -|f.data| <= PosAfter(f, start, end, i).value < end {
      WalkedFrom(f, start, end, i, steps);
    }
    var met := seq(steps, i requires 0 <= i < steps => PosAfter(f, start, end, i).value);
    if forall i, j :: 0 <= i < j < |met| ==> met[i] != met[j] {
      DistinctFit(met, -|f.data|, end);
      assert false;
    } else {
      var i, j :| 0 <= i < j < |met| && met[i] == met[j];
      m, n := i, j;
    }
  }

  /** The walk never ends exactly when it meets a position twice. */
  lemma NeverEndsIffMeetsAgain(f: File, start: int, end: int)
    ensures NeverEnds(f, start, end) <==> exists m: nat, n: nat :: MeetsAgain(f, start, end, m, n)
  {
    hide PosAfter;
    if NeverEnds(f, start, end) {
      var m, n := TooManyPages(f, start, end);
    }
    if m: nat, n: nat :| MeetsAgain(f, start, end, m, n) {
      forall k: nat ensures PosAfter(f, start, end, k).Some? { RepeatsForever(f, start, end, m, n, k); }
    }
  }

  /** And exactly when it has not ended after one page more than there are positions: so many steps decide it. */
  lemma NeverEndsIff(f: File, start: int, end: int)
    ensures NeverEnds(f, start, end) <==> StillWalking(f, start, end)
  {
    hide PosAfter;
    if StillWalking(f, start, end) {
      var m, n := TooManyPages(f, start, end);
      NeverEndsIffMeetsAgain(f, start, end);
    }
  }

  /** The walk as it is made, with a record of where it has been: it finishes, or stops, or is seen never to end. */
  method Walk(f: File, start: int, end: int) returns (r: Walked)
    ensures r.Pages? ==> Trail(f, r.pages, start, end, r.stop) && r.stop >= end
    ensures r.Pages? <==> Finishes(f, start, end)
    ensures r.Endless? <==> NeverEnds(f, start, end)
    ensures r.Endless? <==> StillWalking(f, start, end)
  {
    NeverEndsIff(f, start, end);
    hide StillWalking;
    hide PageAt, Trail, NeverEnds, Finishes, Visited;
    var pos, pages := start, [];
    var seen: set<int> := {};
    ghost var places := Places(-|f.data|, end);
    EmptyTrail(f, start, end);
    while pos < end
      invariant Trail(f, pages, start, end, pos)
      invariant forall x :: x in seen ==> Visited(pages, x)
      decreases |places - seen|
    {
      var p := PageAt(f, pos);
      AtOffset(f, pos);
      if p.None? {
        UnreadableEnds(f, pages, start, end, pos);
        return Unreadable;
      }
      if pos in seen {
        NeverEndsAgain(f, pages, start, end, pos);
        return Endless;
      }
      TrailMore(f, pages, start, end, pos);
      assert pos in places - seen && places - (seen + {pos}) == places - seen - {pos};
      seen := seen + {pos};
      VisitedMore(pages, p.value);
      pages := pages + [p.value];
      pos := pos + p.value.size;
    }
    FinishedEnds(f, pages, start, end, pos);
    r := Pages(pages, pos);
  }

  ghost function Places(lo: int, hi: int): (r: set<int>)
    ensures forall x :: x in r <==> lo <= x < hi
    decreases hi - lo
  {
    if lo >= hi then {} else {lo} + Places(lo + 1, hi)
  }

  lemma EmptyTrail(f: File, start: int, end: int)
    ensures Trail(f, [], start, end, start)
  {
  }

  // ---- When the walked pages tile ----

  /** Pages one after another from `from` to `to`, each as its header says and none of them empty or backward. */
  predicate Tiles(f: File, pages: seq<PageInfo>, from: int, to: int) {
    if pages == [] then from == to
    else
      var p := pages[|pages| - 1];
      p.size > 0 && p.offset + p.size == to && PageAt(f, p.offset) == Some(p) && Tiles(f, pages[..|pages| - 1], from, p.offset)
  }

  ghost predicate Tileable(f: File, from: int, to: int) {
    exists pages: seq<PageInfo> :: Tiles(f, pages, from, to)
  }

  predicate Inside(p: PageInfo, at: int) {
    p.offset <= at < p.offset + p.size
  }

  lemma {:induction false} TilesBounds(f: File, pages: seq<PageInfo>, from: int, to: int, i: nat)
    requires Tiles(f, pages, from, to) && i < |pages|
    ensures from <= pages[i].offset && pages[i].size > 0 && pages[i].offset + pages[i].size <= to
    ensures i + 1 < |pages| ==> pages[i + 1].offset == pages[i].offset + pages[i].size
    ensures i == 0 ==> pages[i].offset == from
    ensures PageAt(f, pages[i].offset) == Some(pages[i])
  {
    hide PageAt;
    var front, last := pages[..|pages| - 1], pages[|pages| - 1];
    if i < |front| {
      TilesBounds(f, front, from, last.offset, i);
      if i + 1 == |front| { assert Tiles(f, front, from, last.offset); }
    } else if front != [] {
      TilesBounds(f, front, from, last.offset, |front| - 1);
    }
  }

  /** Every byte of the walked range lies in exactly one page. */
  lemma {:induction false} OnePageEachByte(f: File, pages: seq<PageInfo>, from: int, to: int, at: int) returns (i: nat)
    requires Tiles(f, pages, from, to) && from <= at < to
    ensures i < |pages| && Inside(pages[i], at)
    ensures forall j :: 0 <= j < |pages| && j != i ==> !Inside(pages[j], at)
  {
    hide PageAt;
    var front, last := pages[..|pages| - 1], pages[|pages| - 1];
    if at >= last.offset {
      i := |front|;
      forall j | 0 <= j < |front| ensures !Inside(pages[j], at) {
        TilesBounds(f, front, from, last.offset, j);
      }
    } else {
      i := OnePageEachByte(f, front, from, last.offset, at);
      forall j | 0 <= j < |pages| && j != i ensures !Inside(pages[j], at) {
        if j < |front| { assert front[j] == pages[j]; }
      }
    }
  }

  /** Two tilings from the same place agree as far as the shorter goes. */
  lemma {:induction false} TilesPrefix(f: File, a: seq<PageInfo>, b: seq<PageInfo>, from: int, x: int, y: int)
    requires Tiles(f, a, from, x) && Tiles(f, b, from, y) && x <= y
    ensures |a| <= |b| && a == b[..|a|]
    ensures |a| < |b| ==> b[|a|].offset == x
    ensures |a| == |b| <==> x == y
    decreases |a| + |b|
  {
    hide PageAt;
    if b == [] {
      if a != [] { TilesBounds(f, a, from, x, 0); }
    } else {
      var front, last := b[..|b| - 1], b[|b| - 1];
      if x <= last.offset {
        TilesPrefix(f, a, front, from, x, last.offset);
        assert a == b[..|a|];
      } else {
        TilesPrefix(f, front, a, from, last.offset, x);
        TilesBounds(f, a, from, x, |front|);
        if |a| > |front| + 1 { TilesBounds(f, a, from, x, |front| + 1); }
        assert a == front + [last] == b;
      }
    }
  }

  predicate AllForward(pages: seq<PageInfo>) {
    forall i :: 0 <= i < |pages| ==> pages[i].size > 0
  }

  /** A tiling is a walk to its end. */
  lemma {:induction false} TilesAreWalked(f: File, pages: seq<PageInfo>, from: int, end: int, to: int)
    requires Tiles(f, pages, from, to) && to <= end
    ensures Trail(f, pages, from, end, to) && AllForward(pages)
  {
    hide PageAt;
    if pages != [] { TilesAreWalked(f, pages[..|pages| - 1], from, end, pages[|pages| - 1].offset); }
  }

  lemma {:induction false} ForwardTiles(f: File, pages: seq<PageInfo>, from: int, end: int, to: int)
    requires Trail(f, pages, from, end, to) && AllForward(pages)
    ensures Tiles(f, pages, from, to)
  {
    hide PageAt;
    if pages != [] { ForwardTiles(f, pages[..|pages| - 1], from, end, pages[|pages| - 1].offset); }
  }

  /** The pages of a walk that ends at the last byte tile the range exactly when every header it met gives its page a
      positive size; otherwise nothing tiles it. */
  lemma ExactWalkTiles(f: File, pages: seq<PageInfo>, start: int, end: int)
    requires Trail(f, pages, start, end, end)
    ensures Tiles(f, pages, start, end) <==> AllForward(pages)
    ensures Tileable(f, start, end) <==> AllForward(pages)
  {
    hide PageAt, Trail, Tiles;
    if AllForward(pages) { ForwardTiles(f, pages, start, end, end); }
    if Tileable(f, start, end) {
      var ps :| Tiles(f, ps, start, end);
      TilesAreWalked(f, ps, start, end, end);
      OneFinish(f, ps, pages, start, end, end, end);
    }
  }

  /** No header that the walk comes to gives a negative compressed size. */
  ghost predicate NonNegativeSizes(f: File, start: int, end: int) {
    forall n: nat :: PosAfter(f, start, end, n).Some? && PosAfter(f, start, end, n).value < end ==>
      NonNegativeAt(f, PosAfter(f, start, end, n).value)
  }

  predicate NonNegativeAt(f: File, pos: int) {
    CompressedSize(f, pos).Some? ==> CompressedSize(f, pos).value >= 0
  }

  lemma ForwardAt(f: File, pos: int)
    requires PageAt(f, pos).Some? && NonNegativeAt(f, pos)
    ensures PageAt(f, pos).value.size > 0
  {
    AtOffset(f, pos);
    hide ValueCount, StructAt;
  }

  lemma {:induction false} WalksOn(f: File, start: int, end: int, n: nat)
    requires NonNegativeSizes(f, start, end) && PosAfter(f, start, end, n).Some?
    ensures PosAfter(f, start, end, n).value >= start + n
  {
    hide PageAt, NonNegativeAt;
    if n > 0 {
      WalksOn(f, start, end, n - 1);
      ForwardAt(f, PosAfter(f, start, end, n - 1).value);
    }
  }

  /** Over sizes that are not negative the walk ends. */
  lemma NonNegativeEnds(f: File, start: int, end: int)
    requires NonNegativeSizes(f, start, end)
    ensures !NeverEnds(f, start, end)
  {
    hide PageAt, NonNegativeSizes;
    var n: nat := if end > start then end - start else 0;
    if NeverEnds(f, start, end) {
      WalksOn(f, start, end, n);
      assert PosAfter(f, start, end, n + 1).None?;
    }
  }

  /** Over sizes that are not negative, a walk that ends at the last byte tiles. */
  lemma NonNegativeTiles(f: File, pages: seq<PageInfo>, start: int, end: int)
    requires NonNegativeSizes(f, start, end) && Trail(f, pages, start, end, end)
    ensures Tiles(f, pages, start, end)
  {
    hide PageAt, Trail, PosAfter, NonNegativeAt;
    forall i | 0 <= i < |pages| ensures pages[i].size > 0 {
      TrailPart(f, pages, start, end, end, i);
      TrailIs(f, pages[..i], start, end, pages[i].offset);
      ForwardAt(f, pages[i].offset);
    }
    ExactWalkTiles(f, pages, start, end);
  }

  // ---- The chunk ----

  /** A column chunk's metadata: where its pages and its two indexes are said to be. */
  datatype Chunk = Chunk(
    dictionaryOffset: Option<int>, dataOffset: int, totalSize: int, numValues: int,
    offsetIndexAt: Option<int>, offsetIndexLength: Option<int>, columnIndexAt: Option<int>, columnIndexLength: Option<int>)

  function StartOf(c: Chunk): int {
    if c.dictionaryOffset.Some? then c.dictionaryOffset.value else c.dataOffset
  }

  function EndOf(c: Chunk): int { StartOf(c) + c.totalSize }

  predicate IsData(p: PageInfo) { p.kind == DATA_PAGE || p.kind == DATA_PAGE_V2 }

  function DataPages(pages: seq<PageInfo>): (d: seq<PageInfo>)
    ensures forall p :: p in d <==> p in pages && IsData(p)
  {
    if pages == [] then []
    else (if IsData(pages[0]) then [pages[0]] else []) + DataPages(pages[1..])
  }

  /** The rows before page `k`. */
  function RowsBefore(pages: seq<PageInfo>, k: nat): int
    requires k <= |pages|
  {
    if k == 0 then 0 else RowsBefore(pages, k - 1) + pages[k - 1].values
  }

  predicate HasDictionary(pages: seq<PageInfo>) {
    exists i :: 0 <= i < |pages| && pages[i].kind == DICTIONARY_PAGE
  }

  /** What the layout checks establish: the walk over the chunk ends at its last byte, over these pages. */
  predicate LaidOut(f: File, c: Chunk, rows: int, pages: seq<PageInfo>) {
    && Trail(f, pages, StartOf(c), EndOf(c), EndOf(c))
    && RowsBefore(DataPages(pages), |DataPages(pages)|) == c.numValues == rows
    && (c.dictionaryOffset.Some? <==> HasDictionary(pages))
    && (DataPages(pages) != [] ==> DataPages(pages)[0].offset == c.dataOffset)
  }

  /** Accepts exactly the chunks that are laid out as said, with their pages. */
  method CheckLayout(f: File, c: Chunk, rows: int) returns (ok: bool, walked: Walked)
    ensures ok ==> walked.Pages? && LaidOut(f, c, rows, walked.pages)
    ensures !ok ==> forall ps :: !LaidOut(f, c, rows, ps)
    ensures walked.Endless? <==> NeverEnds(f, StartOf(c), EndOf(c))
    ensures walked.Endless? <==> StillWalking(f, StartOf(c), EndOf(c))
  {
    hide Trail, PageAt, Finishes, NeverEnds, StillWalking, DataPages, RowsBefore, HasDictionary;
    walked := Walk(f, StartOf(c), EndOf(c));
    if !walked.Pages? {
      NoFinishNoLayout(f, c, rows);
      return false, walked;
    }
    OnlyThesePages(f, c, rows, walked.pages, walked.stop);
    if walked.stop != EndOf(c) { return false, walked; }
    NoRowsBefore(DataPages(walked.pages));
    var data_pages := DataPages(walked.pages);
    var total := 0;
    for i := 0 to |data_pages|
      invariant total == RowsBefore(data_pages, i)
    {
      RowsBeforeNext(data_pages, i);
      total := total + data_pages[i].values;
    }
    ok := total == c.numValues && c.numValues == rows && (c.dictionaryOffset.Some? <==> HasDictionary(walked.pages))
       && (data_pages != [] ==> data_pages[0].offset == c.dataOffset);
  }

  lemma NoFinishNoLayout(f: File, c: Chunk, rows: int)
    requires !Finishes(f, StartOf(c), EndOf(c))
    ensures forall ps :: !LaidOut(f, c, rows, ps)
  {
    hide Trail;
  }

  /** The walked pages are the only ones the chunk can be laid out with. */
  lemma OnlyThesePages(f: File, c: Chunk, rows: int, pages: seq<PageInfo>, stop: int)
    requires Trail(f, pages, StartOf(c), EndOf(c), stop) && stop >= EndOf(c)
    ensures forall ps :: LaidOut(f, c, rows, ps) ==> ps == pages && stop == EndOf(c)
  {
    hide Trail;
    forall ps | LaidOut(f, c, rows, ps) ensures ps == pages && stop == EndOf(c) {
      OneFinish(f, ps, pages, StartOf(c), EndOf(c), EndOf(c), stop);
    }
  }

  lemma NoRowsBefore(pages: seq<PageInfo>)
    ensures RowsBefore(pages, 0) == 0
  {
  }

  /** A chunk that passes is tiled by its pages exactly when every header met on the walk gives a positive size. */
  lemma LaidOutTiles(f: File, c: Chunk, rows: int, pages: seq<PageInfo>)
    requires LaidOut(f, c, rows, pages)
    ensures Tiles(f, pages, StartOf(c), EndOf(c)) <==> AllForward(pages)
    ensures Tileable(f, StartOf(c), EndOf(c)) <==> AllForward(pages)
    ensures NonNegativeSizes(f, StartOf(c), EndOf(c)) ==> AllForward(pages)
  {
    hide Trail, Tiles, Tileable, NonNegativeSizes;
    ExactWalkTiles(f, pages, StartOf(c), EndOf(c));
    if NonNegativeSizes(f, StartOf(c), EndOf(c)) { NonNegativeTiles(f, pages, StartOf(c), EndOf(c)); }
  }

  // ---- Files whose pages do not tile ----

  /** A page header: kind 0, compressed size as given, and no values. */
  function HeaderBytes(size: byte): seq<byte> {
    [0x15, 0x00, 0x25, size, 0x2C, 0x15, 0x00, 0x00, 0x00]
  }

  lemma IntField(out: map<int, Plain>, last: int, head: byte, n: byte, rest: seq<byte>)
    requires head / 16 > 0 && head % 16 == 5 && n < 128
    ensures CompactFields(out, last, [head, n] + rest) ==
            match CompactFields(out[last + head / 16 := PInt(Bits.Unzigzag(n))], last + head / 16, rest)
            case Got(dict, more) => Got(dict, 2 + more)
            case Fail(e) => Fail(e)
  {
    hide CompactFields, Compact;
    var s := [head, n] + rest;
    assert Drop(s, 1) == [n] + rest && Drop(s, 2) == rest;
    IntAt(n, rest);
    FieldsUnfold(out, last, s, Got(FieldHead(last + head / 16, 5), 1), Got(PInt(Bits.Unzigzag(n)), 1));
  }

  lemma IntAt(n: byte, rest: seq<byte>)
    requires n < 128
    ensures Compact(5, [n] + rest) == Got(PInt(Bits.Unzigzag(n)), 1)
  {
  }

  lemma StopField(out: map<int, Plain>, last: int, rest: seq<byte>)
    ensures CompactFields(out, last, [0] + rest) == Got(out, 1)
  {
  }

  lemma StructField(out: map<int, Plain>, last: int, rest: seq<byte>, inner: map<int, Plain>, used: nat)
    requires CompactFields(map[], 0, rest) == Got(inner, used)
    ensures CompactFields(out, last, [0x2C] + rest) ==
            match CompactFields(out[last + 2 := PDict(inner)], last + 2, Drop(rest, used))
            case Got(dict, more) => Got(dict, 1 + used + more)
            case Fail(e) => Fail(e)
  {
    hide CompactFields;
    var s := [0x2C] + rest;
    assert Drop(s, 1) == rest && Drop(s, 1 + used) == Drop(rest, used);
    FieldsUnfold(out, last, s, Got(FieldHead(last + 2, T_STRUCT), 1), Got(PDict(inner), used));
  }

  lemma FieldsUnfold(out: map<int, Plain>, last: int, s: seq<byte>, head: Read<FieldHead>, val: Read<Plain>)
    requires s != [] && s[0] != 0 && head == ReadFieldHead(last, s) && head.Got?
    requires val == Compact(head.v.ft, Drop(s, head.used)) && val.Got?
    ensures CompactFields(out, last, s) ==
            match CompactFields(out[head.v.fid := val.v], head.v.fid, Drop(s, head.used + val.used))
            case Got(dict, rest) => Got(dict, head.used + val.used + rest)
            case Fail(e) => Fail(e)
  {
    hide Compact, ReadFieldHead;
  }

  lemma HeaderStruct(size: byte, rest: seq<byte>)
    requires size < 128
    ensures CompactFields(map[], 0, HeaderBytes(size) + rest)
         == Got(map[1 := PInt(0), 3 := PInt(Bits.Unzigzag(size)), 5 := PDict(map[1 := PInt(0)])], 9)
  {
    hide CompactFields, Bits.Unzigzag, HeaderBytes;
    Bits.UnzigzagClosed(0);
    var end := [0] + rest;
    var inner := [0x15, 0] + ([0] + end);
    StopField(map[1 := PInt(0)], 1, end);
    IntField(map[], 0, 0x15, 0, [0] + end);
    assert Drop(inner, 3) == end;
    var out := map[1 := PInt(0), 3 := PInt(Bits.Unzigzag(size))];
    StopField(out[5 := PDict(map[1 := PInt(0)])], 5, rest);
    StructField(out, 3, inner, map[1 := PInt(0)], 3);
    IntField(map[1 := PInt(0)], 1, 0x25, size, [0x2C] + inner);
    IntField(map[], 0, 0x15, 0, [0x25, size] + ([0x2C] + inner));
    HeaderParts(size, rest);
  }

  lemma HeaderParts(size: byte, rest: seq<byte>)
    ensures HeaderBytes(size) + rest
         == [0x15, 0] + ([0x25, size] + ([0x2C] + ([0x15, 0] + ([0] + ([0] + rest)))))
  {
  }

  lemma PageOfHeader(f: File, pos: int, size: byte, rest: seq<byte>)
    requires 0 <= pos <= |f.data| && f.data[pos..] == HeaderBytes(size) + rest && size < 128
    ensures PageAt(f, pos) == Some(PageInfo(0, pos, 9 + Bits.Unzigzag(size), 0))
  {
    hide CompactFields;
    HeaderStruct(size, rest);
  }

  /** Three headers whose sizes are 9, 9 and -18. */
  function BackwardBytes(): seq<byte> {
    HeaderBytes(18) + HeaderBytes(18) + HeaderBytes(35)
  }

  /** A chunk passes whose third page lies inside its first one, and which no pages tile. */
  lemma BackwardChunkPasses(fromEnd: FromEnd, rows: seq<Cell>, b: Bounds)
    ensures var f, c := File(BackwardBytes(), fromEnd), Chunk(None, 0, 27, 0, None, None, None, None);
            var pages := [PageInfo(0, 0, 18, 0), PageInfo(0, 18, -9, 0), PageInfo(0, 9, 18, 0)];
            Passes(f, c, 0, rows, b, false, pages) && Inside(pages[0], 9) && Inside(pages[2], 9) && !Tileable(f, 0, 27)
  {
    var f, c := File(BackwardBytes(), fromEnd), Chunk(None, 0, 27, 0, None, None, None, None);
    var pages := [PageInfo(0, 0, 18, 0), PageInfo(0, 18, -9, 0), PageInfo(0, 9, 18, 0)];
    BackwardPages(fromEnd);
    hide PageAt, BackwardBytes, DataPages, RowsBefore, Trail;
    ThreePages(f, pages);
    ThreeEmptyPages(pages[0], pages[1], pages[2]);
    LaidOutTiles(f, c, 0, pages);
  }

  lemma BackwardPages(fromEnd: FromEnd)
    ensures PageAt(File(BackwardBytes(), fromEnd), 0) == Some(PageInfo(0, 0, 18, 0))
    ensures PageAt(File(BackwardBytes(), fromEnd), 9) == Some(PageInfo(0, 9, 18, 0))
    ensures PageAt(File(BackwardBytes(), fromEnd), 18) == Some(PageInfo(0, 18, -9, 0))
  {
    hide PageAt, HeaderBytes, Bits.Unzigzag;
    var f := File(BackwardBytes(), fromEnd);
    var a, b := HeaderBytes(18), HeaderBytes(35);
    NineBytes(18);
    NineBytes(35);
    Bits.UnzigzagClosed(18);
    Bits.UnzigzagClosed(35);
    assert f.data[0..] == a + (a + b) && f.data[9..] == a + b && f.data[18..] == b + [];
    PageOfHeader(f, 0, 18, a + b);
    PageOfHeader(f, 9, 18, b);
    PageOfHeader(f, 18, 35, []);
  }

  lemma NineBytes(size: byte)
    ensures |HeaderBytes(size)| == 9
  {
  }

  lemma ThreePages(f: File, pages: seq<PageInfo>)
    requires |pages| == 3 && pages[0].offset == 0
    requires forall i :: 0 <= i < 3 ==> pages[i].offset < 27 && PageAt(f, pages[i].offset) == Some(pages[i])
    requires pages[0].size == pages[1].offset && pages[1].offset + pages[1].size == pages[2].offset
    requires pages[2].offset + pages[2].size == 27
    ensures Trail(f, pages, 0, 27, 27)
  {
    hide PageAt;
    assert Trail(f, pages[..1], 0, 27, pages[1].offset);
    assert pages[..2][..1] == pages[..1];
    assert Trail(f, pages[..2], 0, 27, pages[2].offset);
  }

  lemma ThreeEmptyPages(a: PageInfo, b: PageInfo, c: PageInfo)
    requires a.kind == b.kind == c.kind == DATA_PAGE && a.values == b.values == c.values == 0
    ensures DataPages([a, b, c]) == [a, b, c] && RowsBefore([a, b, c], 3) == 0
  {
    assert [a, b, c][1..] == [b, c] && [b, c][1..] == [c] && [c][1..] == [];
    assert DataPages([c]) == [c] + DataPages([]);
    assert DataPages([b, c]) == [b] + DataPages([c]);
    assert DataPages([a, b, c]) == [a] + DataPages([b, c]);
    NoRowsBefore([a, b, c]);
    RowsBeforeNext([a, b, c], 0);
    RowsBeforeNext([a, b, c], 1);
    RowsBeforeNext([a, b, c], 2);
  }

  /** Over a header whose compressed size takes back its own bytes the walk never ends. */
  lemma StandingWalkNeverEnds(fromEnd: FromEnd)
    ensures NeverEnds(File(HeaderBytes(17), fromEnd), 0, 9)
  {
    var f := File(HeaderBytes(17), fromEnd);
    Bits.UnzigzagClosed(17);
    assert f.data[0..] == HeaderBytes(17) + [];
    PageOfHeader(f, 0, 17, []);
    forall n: nat ensures PosAfter(f, 0, 9, n).Some? { StandsStill(f, 0, 9, n); }
  }

  lemma {:induction false} StandsStill(f: File, start: int, end: int, n: nat)
    requires start < end && PageAt(f, start).Some? && PageAt(f, start).value.size == 0
    ensures PosAfter(f, start, end, n) == Some(start)
  {
    hide PageAt;
    if n > 0 { StandsStill(f, start, end, n - 1); }
  }

  // ---- The offset index ----

  function LocationIn(p: Plain): Option<Location> {
    if p.PDict? && IntIn(p.dict, 1).Some? && IntIn(p.dict, 2).Some? && IntIn(p.dict, 3).Some? then
      Some(Location(IntIn(p.dict, 1).value, IntIn(p.dict, 2).value, IntIn(p.dict, 3).value))
    else None
  }

  /** The offset index at `pos`: its entries as they stand there. */
  function ListAt(f: File, pos: int, fid: int): Option<seq<Plain>> {
    match StructAt(f, pos)
    case Fail(_) => None
    case Got(dict, _) => if fid in dict && dict[fid].PList? then Some(dict[fid].items) else None
  }

  function LengthAt(f: File, pos: int): Option<int> {
    match StructAt(f, pos)
    case Fail(_) => None
    case Got(_, used) => Some(used)
  }

  /** Entry `i` names page `i`: its offset, its size with header, and the rows before it. */
  predicate Locates(items: seq<Plain>, pages: seq<PageInfo>) {
    && |items| == |pages|
    && forall i :: 0 <= i < |pages| ==>
         LocationIn(items[i]) == Some(Location(pages[i].offset, pages[i].size, RowsBefore(pages, i)))
  }

  /** The offset index stands where it is said to, is as long as it is said to be, and locates every page. */
  predicate OffsetIndexRight(f: File, c: Chunk, pages: seq<PageInfo>) {
    && c.offsetIndexAt.Some?
    && ListAt(f, c.offsetIndexAt.value, 1).Some?
    && (f.data != [] && c.offsetIndexLength.Some? ==> LengthAt(f, c.offsetIndexAt.value) == c.offsetIndexLength)
    && Locates(ListAt(f, c.offsetIndexAt.value, 1).value, pages)
  }

  method CheckOffsetIndex(f: File, c: Chunk, pages: seq<PageInfo>) returns (ok: bool)
    requires c.offsetIndexAt.Some?
    ensures ok <==> OffsetIndexRight(f, c, pages)
  {
    hide ListAt, LengthAt, LocationIn, RowsBefore;
    NoRowsBefore(pages);
    var at := c.offsetIndexAt.value;
    var items := ListAt(f, at, 1);
    if items.None? { return false; }
    if f.data != [] && c.offsetIndexLength.Some? && LengthAt(f, at) != c.offsetIndexLength { return false; }
    if |items.value| != |pages| { return false; }
    var first := 0;
    for i := 0 to |pages|
      invariant first == RowsBefore(pages, i)
      invariant forall k :: 0 <= k < i ==>
        LocationIn(items.value[k]) == Some(Location(pages[k].offset, pages[k].size, RowsBefore(pages, k)))
    {
      RowsBeforeNext(pages, i);
      if LocationIn(items.value[i]) != Some(Location(pages[i].offset, pages[i].size, first)) { return false; }
      first := first + pages[i].values;
    }
    ok := true;
  }

  // ---- The column index ----

  /** A present value or a decoded bound. */
  type Key = c: Cell | !c.Null? witness Num(0.0)

  datatype ColumnIndex = ColumnIndex(
    nullPages: seq<bool>, mins: seq<seq<byte>>, maxs: seq<seq<byte>>, order: int, nullCounts: Option<seq<int>>)

  function Bools(items: seq<Plain>): Option<seq<bool>> {
    if forall i :: 0 <= i < |items| ==> items[i].PBool? then
      Some(seq(|items|, i requires 0 <= i < |items| => items[i].PBool? && items[i].b))
    else None
  }

  function Bytes(items: seq<Plain>): Option<seq<seq<byte>>> {
    if forall i :: 0 <= i < |items| ==> items[i].PBytes? then
      Some(seq(|items|, i requires 0 <= i < |items| => if items[i].PBytes? then items[i].s else []))
    else None
  }

  function Ints(items: seq<Plain>): Option<seq<int>> {
    if forall i :: 0 <= i < |items| ==> items[i].PInt? then
      Some(seq(|items|, i requires 0 <= i < |items| => if items[i].PInt? then items[i].n else 0))
    else None
  }

  function ColumnIndexIn(d: map<int, Plain>): Option<ColumnIndex> {
    if !(1 in d && d[1].PList? && 2 in d && d[2].PList? && 3 in d && d[3].PList? && IntIn(d, 4).Some?) then None
    else if Bools(d[1].items).None? || Bytes(d[2].items).None? || Bytes(d[3].items).None? then None
    else if 5 !in d then
      Some(ColumnIndex(Bools(d[1].items).value, Bytes(d[2].items).value, Bytes(d[3].items).value, IntIn(d, 4).value, None))
    else if !d[5].PList? || Ints(d[5].items).None? then None
    else
      Some(ColumnIndex(Bools(d[1].items).value, Bytes(d[2].items).value, Bytes(d[3].items).value, IntIn(d, 4).value,
        Ints(d[5].items)))
  }

  function ColumnIndexAt(f: File, pos: int): Option<ColumnIndex> {
    match StructAt(f, pos)
    case Fail(_) => None
    case Got(d, _) => ColumnIndexIn(d)
  }

  /** The values of page `i`, by the row counts of the pages before it. */
  function PageRows(rows: seq<Cell>, pages: seq<PageInfo>, i: nat): seq<Cell>
    requires i < |pages|
  {
    Slices.PySlice(rows, RowsBefore(pages, i), RowsBefore(pages, i) + pages[i].values)
  }

  predicate HasValues(rows: seq<Cell>, pages: seq<PageInfo>, i: nat)
    requires i < |pages|
  {
    Present(PageRows(rows, pages, i)) > 0
  }

  predicate AtMost(a: Cell, b: Cell) { !Less(b, a) }

  /** Bounds that may be truncated enclose the values; others are the least and the greatest of them. */
  predicate Bounding(lo: Cell, hi: Cell, values: seq<Cell>, encloses: bool) {
    if encloses then AtMost(lo, Extreme(Min, values)) && AtMost(Extreme(Max, values), hi)
    else lo == Extreme(Min, values) && hi == Extreme(Max, values)
  }

  /** How bound bytes are decoded, and whether they may be truncated. */
  datatype Bounds = Bounds(decode: seq<byte> -> Key, encloses: bool)

  predicate PageIndexed(ix: ColumnIndex, b: Bounds, rows: seq<Cell>, pages: seq<PageInfo>, i: nat)
    requires i < |pages| == |ix.nullPages| == |ix.mins| == |ix.maxs|
  {
    var values := PageRows(rows, pages, i);
    && pages[i].values >= 0
    && (ix.nullCounts.Some? ==> i < |ix.nullCounts.value| && ix.nullCounts.value[i] == |values| - Present(values))
    && (ix.nullPages[i] <==> Present(values) == 0)
    && (Present(values) > 0 ==> Bounding(b.decode(ix.mins[i]), b.decode(ix.maxs[i]), values, b.encloses))
  }

  /** The bounds of page `i` are at most those of page `j`, on both sides. */
  predicate Before(ix: ColumnIndex, b: Bounds, i: nat, j: nat)
    requires i < |ix.mins| == |ix.maxs| && j < |ix.mins|
  {
    AtMost(b.decode(ix.mins[i]), b.decode(ix.mins[j])) && AtMost(b.decode(ix.maxs[i]), b.decode(ix.maxs[j]))
  }

  predicate SameLengths(ix: ColumnIndex, n: nat) {
    |ix.nullPages| == |ix.mins| == |ix.maxs| == n
  }

  /** Every two pages with values, among the first `n`, in ascending (or descending) order of their bounds. */
  ghost predicate Ordered(ix: ColumnIndex, b: Bounds, rows: seq<Cell>, pages: seq<PageInfo>, n: nat, ascending: bool)
    requires n <= |pages| && SameLengths(ix, |pages|)
  {
    forall i, j :: 0 <= i < j < n && HasValues(rows, pages, i) && HasValues(rows, pages, j) ==>
      if ascending then Before(ix, b, i, j) else Before(ix, b, j, i)
  }

  /** What the column index checks establish. */
  ghost predicate Indexed(ix: ColumnIndex, b: Bounds, rows: seq<Cell>, pages: seq<PageInfo>) {
    && SameLengths(ix, |pages|)
    && (forall i :: 0 <= i < |pages| ==> PageIndexed(ix, b, rows, pages, i))
    && (ix.order == 1 ==> Ordered(ix, b, rows, pages, |pages|, true))
    && (ix.order == 2 ==> Ordered(ix, b, rows, pages, |pages|, false))
  }

  lemma AtMostChain(x: Key, y: Key, z: Key)
    requires AtMost(x, y) && AtMost(y, z)
    ensures AtMost(x, z)
  {
    LessOrder(x, y);
    LessOrder(y, z);
    LessOrder(x, z);
    if Less(x, y) && Less(y, z) { LessChain(x, y, z); }
  }

  lemma BeforeChain(ix: ColumnIndex, b: Bounds, i: nat, j: nat, k: nat)
    requires |ix.mins| == |ix.maxs| && i < |ix.mins| && j < |ix.mins| && k < |ix.mins|
    requires Before(ix, b, i, j) && Before(ix, b, j, k)
    ensures Before(ix, b, i, k)
  {
    hide AtMost;
    AtMostChain(b.decode(ix.mins[i]), b.decode(ix.mins[j]), b.decode(ix.mins[k]));
    AtMostChain(b.decode(ix.maxs[i]), b.decode(ix.maxs[j]), b.decode(ix.maxs[k]));
  }

  /** The last of the first `n` pages that has values, if any. */
  predicate IsLast(rows: seq<Cell>, pages: seq<PageInfo>, n: nat, last: Option<nat>)
    requires n <= |pages|
  {
    match last
    case None => forall i :: 0 <= i < n ==> !HasValues(rows, pages, i)
    case Some(k) => k < n && HasValues(rows, pages, k) && forall i :: k < i < n ==> !HasValues(rows, pages, i)
  }

  /** How page `n` stands to the last page before it that has values. */
  predicate InStep(ix: ColumnIndex, b: Bounds, rows: seq<Cell>, pages: seq<PageInfo>, n: nat, last: Option<nat>, ascending: bool)
    requires n < |pages| && SameLengths(ix, |pages|) && (last.Some? ==> last.value < n)
  {
    last.Some? && HasValues(rows, pages, n) ==>
      if ascending then Before(ix, b, last.value, n) else Before(ix, b, n, last.value)
  }

  /** Comparing a page with the last one before it that has values is comparing it with all of them. */
  lemma OrderedGrows(ix: ColumnIndex, b: Bounds, rows: seq<Cell>, pages: seq<PageInfo>, n: nat, last: Option<nat>, ascending: bool)
    requires n < |pages| && SameLengths(ix, |pages|) && IsLast(rows, pages, n, last)
    ensures Ordered(ix, b, rows, pages, n + 1, ascending) <==>
      Ordered(ix, b, rows, pages, n, ascending) && InStep(ix, b, rows, pages, n, last, ascending)
  {
    hide Before, HasValues;
    if Ordered(ix, b, rows, pages, n, ascending) && InStep(ix, b, rows, pages, n, last, ascending) {
      forall i, j | 0 <= i < j < n + 1 && HasValues(rows, pages, i) && HasValues(rows, pages, j)
        ensures if ascending then Before(ix, b, i, j) else Before(ix, b, j, i)
      {
        if j == n && i != last.value {
          if ascending { BeforeChain(ix, b, i, last.value, n); } else { BeforeChain(ix, b, n, last.value, i); }
        }
      }
    }
  }

  /** The column index stands where it is said to, is as long as it is said to be, and describes the pages. */
  ghost predicate ColumnIndexRight(f: File, c: Chunk, pages: seq<PageInfo>, rows: seq<Cell>, b: Bounds) {
    && c.columnIndexAt.Some?
    && ColumnIndexAt(f, c.columnIndexAt.value).Some?
    && (c.columnIndexLength.Some? ==> LengthAt(f, c.columnIndexAt.value) == c.columnIndexLength)
    && Indexed(ColumnIndexAt(f, c.columnIndexAt.value).value, b, rows, pages)
  }

  method CheckColumnIndex(f: File, c: Chunk, pages: seq<PageInfo>, rows: seq<Cell>, b: Bounds) returns (ok: bool)
    requires c.columnIndexAt.Some?
    ensures ok <==> ColumnIndexRight(f, c, pages, rows, b)
  {
    hide ColumnIndexAt, LengthAt, HasValues, Before, PageIndexed, IsLast, Ordered, Present, Extreme, RowsBefore;
    var at := c.columnIndexAt.value;
    var read := ColumnIndexAt(f, at);
    if read.None? { return false; }
    if c.columnIndexLength.Some? && LengthAt(f, at) != c.columnIndexLength { return false; }
    var ix := read.value;
    if !SameLengths(ix, |pages|) { return false; }
    var first := 0;
    var prev: Option<nat> := None;
    var asc, desc := true, true;
    NothingBefore(ix, b, rows, pages);
    for i := 0 to |pages|
      invariant first == RowsBefore(pages, i) && IsLast(rows, pages, i, prev)
      invariant forall k :: 0 <= k < i ==> PageIndexed(ix, b, rows, pages, k)
      invariant asc <==> Ordered(ix, b, rows, pages, i, true)
      invariant desc <==> Ordered(ix, b, rows, pages, i, false)
    {
      RowsBeforeNext(pages, i);
      var values := Slices.PySlice(rows, first, first + pages[i].values);
      var good := CheckPage(ix, b, rows, pages, i, values);
      if !good { return false; }
      first := first + pages[i].values;
      HasValuesMeans(rows, pages, i);
      LastMeans(rows, pages, i, prev);
      if Present(values) > 0 {
        if prev.Some? {
          asc := asc && Before(ix, b, prev.value, i);
          desc := desc && Before(ix, b, i, prev.value);
        }
      }
      OrderedGrows(ix, b, rows, pages, i, prev, true);
      OrderedGrows(ix, b, rows, pages, i, prev, false);
      NextLast(rows, pages, i, prev);
      if Present(values) > 0 { prev := Some(i); }
    }
    ok := !(ix.order == 1 && !asc) && !(ix.order == 2 && !desc);
  }

  lemma NothingBefore(ix: ColumnIndex, b: Bounds, rows: seq<Cell>, pages: seq<PageInfo>)
    requires SameLengths(ix, |pages|)
    ensures RowsBefore(pages, 0) == 0 && IsLast(rows, pages, 0, None)
    ensures Ordered(ix, b, rows, pages, 0, true) && Ordered(ix, b, rows, pages, 0, false)
  {
  }

  lemma RowsBeforeNext(pages: seq<PageInfo>, i: nat)
    requires i < |pages|
    ensures RowsBefore(pages, i + 1) == RowsBefore(pages, i) + pages[i].values
  {
  }

  lemma HasValuesMeans(rows: seq<Cell>, pages: seq<PageInfo>, i: nat)
    requires i < |pages|
    ensures HasValues(rows, pages, i) <==>
      Present(Slices.PySlice(rows, RowsBefore(pages, i), RowsBefore(pages, i) + pages[i].values)) > 0
  {
  }

  lemma LastMeans(rows: seq<Cell>, pages: seq<PageInfo>, n: nat, last: Option<nat>)
    requires n <= |pages| && IsLast(rows, pages, n, last)
    ensures last.Some? ==> last.value < n
  {
  }

  lemma NextLast(rows: seq<Cell>, pages: seq<PageInfo>, i: nat, last: Option<nat>)
    requires i < |pages| && IsLast(rows, pages, i, last)
    ensures IsLast(rows, pages, i + 1, if HasValues(rows, pages, i) then Some(i) else last)
  {
    hide HasValues;
  }

  /** Row count, null count, null flag and bounds of one page. */
  method CheckPage(ix: ColumnIndex, b: Bounds, rows: seq<Cell>, pages: seq<PageInfo>, i: nat, values: seq<Cell>)
    returns (ok: bool)
    requires i < |pages| && SameLengths(ix, |pages|) && values == PageRows(rows, pages, i)
    ensures ok <==> PageIndexed(ix, b, rows, pages, i)
  {
    hide Present, Extreme, Less, PageRows;
    if pages[i].values < 0 { return false; }
    var nulls := |values| - Present(values);
    if ix.nullCounts.Some? {
      if i >= |ix.nullCounts.value| || ix.nullCounts.value[i] != nulls { return false; }
    }
    if ix.nullPages[i] != (Present(values) == 0) { return false; }
    if Present(values) == 0 { return true; }
    var lo, hi := b.decode(ix.mins[i]), b.decode(ix.maxs[i]);
    if b.encloses {
      ok := !(Less(Extreme(Min, values), lo) || Less(hi, Extreme(Max, values)));
    } else {
      ok := lo == Extreme(Min, values) && hi == Extreme(Max, values);
    }
  }

  // ---- The whole chunk ----

  /** `NoAnswer` is a check that never comes to its end. */
  datatype Verdict = Accepted(offsetIndex: bool, columnIndex: bool) | Rejected | NoAnswer

  /** What a chunk must be to pass: laid out as said, with the indexes it has, or must have, right. */
  ghost predicate Passes(f: File, c: Chunk, groupRows: int, rows: seq<Cell>, b: Bounds, requireIndex: bool, pages: seq<PageInfo>) {
    && LaidOut(f, c, groupRows, pages)
    && (requireIndex ==> c.columnIndexAt.Some?)
    && (c.offsetIndexAt.Some? || c.columnIndexAt.Some? ==> OffsetIndexRight(f, c, DataPages(pages)))
    && (c.columnIndexAt.Some? ==> ColumnIndexRight(f, c, DataPages(pages), rows, b))
  }

  /** The checks of one chunk in the order they are made; `rows` are the values another reader decodes. */
  method CheckChunk(f: File, c: Chunk, groupRows: int, rows: seq<Cell>, b: Bounds, requireIndex: bool)
    returns (v: Verdict, ghost pages: seq<PageInfo>)
    ensures v.Accepted? ==> Passes(f, c, groupRows, rows, b, requireIndex, pages)
    ensures !v.Accepted? ==> forall ps :: !Passes(f, c, groupRows, rows, b, requireIndex, ps)
    ensures v.NoAnswer? <==> NeverEnds(f, StartOf(c), EndOf(c))
    ensures v.NoAnswer? <==> StillWalking(f, StartOf(c), EndOf(c))
    ensures v.Accepted? ==> v.offsetIndex == (c.offsetIndexAt.Some? || c.columnIndexAt.Some?) && v.columnIndex == c.columnIndexAt.Some?
  {
    hide OffsetIndexRight, ColumnIndexRight, LaidOut, DataPages, NeverEnds, StillWalking;
    var ok, walked := CheckLayout(f, c, groupRows);
    if !ok { return if walked.Endless? then NoAnswer else Rejected, []; }
    pages := walked.pages;
    OnlyThisLayout(f, c, groupRows, pages);
    if c.offsetIndexAt.None? && c.columnIndexAt.None? {
      return if requireIndex then Rejected else Accepted(false, false), pages;
    }
    if c.offsetIndexAt.None? {
      NoOffsetIndex(f, c);
      return Rejected, pages;
    }
    ok := CheckOffsetIndex(f, c, DataPages(walked.pages));
    if !ok { return Rejected, pages; }
    if c.columnIndexAt.None? { return if requireIndex then Rejected else Accepted(true, false), pages; }
    ok := CheckColumnIndex(f, c, DataPages(walked.pages), rows, b);
    v := if ok then Accepted(true, true) else Rejected;
  }

  lemma OnlyThisLayout(f: File, c: Chunk, rows: int, pages: seq<PageInfo>)
    requires LaidOut(f, c, rows, pages)
    ensures forall ps :: LaidOut(f, c, rows, ps) ==> ps == pages
  {
    hide Trail;
    OnlyThesePages(f, c, rows, pages, EndOf(c));
  }

  lemma NoOffsetIndex(f: File, c: Chunk)
    requires c.offsetIndexAt.None?
    ensures forall ps: seq<PageInfo> :: !OffsetIndexRight(f, c, ps)
  {
  }
}
