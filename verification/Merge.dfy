/** Merging the workers' partial answers, per group in order of first appearance, into the answer of one scan. */
module Merge {
  import opened Aggregates
  import Slices

  /** A row as an aggregate query sees it: its group key, and the argument of each aggregate. */
  datatype Row = Row(key: seq<Cell>, args: seq<Cell>)

  /** One row of a worker's grouped answer: the fields `_g0`, `_g1`, ... and `_a0`, `_a1`, ... */
  datatype Part = Part(key: seq<Cell>, states: seq<State>)

  /** The merge functions with their output names, and the output names of the groups. */
  datatype Query = Query(fns: seq<Fn>, names: seq<string>, groups: seq<string>)

  predicate Valid(q: Query) {
    |q.names| == |q.fns|
  }

  // ---- One scan over rows ----

  function Arg(row: Row, j: nat): Cell {
    if j < |row.args| then row.args[j] else Null
  }

  function Column(rows: seq<Row>, j: nat): seq<Cell> {
    seq(|rows|, i requires 0 <= i < |rows| => Arg(rows[i], j))
  }

  function Columns(rows: seq<Row>, n: nat): seq<seq<Cell>> {
    seq(n, j requires 0 <= j < n => Column(rows, j))
  }

  function KeysOf(rows: seq<Row>): seq<seq<Cell>> {
    seq(|rows|, i requires 0 <= i < |rows| => rows[i].key)
  }

  /** The values of `s`, each once, in order of first appearance. */
  function Distinct<T(==,!new)>(s: seq<T>): (d: seq<T>)
    ensures forall x :: x in d <==> x in s
  {
    if s == [] then []
    else
      var front, last := s[..|s| - 1], s[|s| - 1];
      assert s == front + [last];
      if last in front then Distinct(front) else Distinct(front) + [last]
  }

  function Keys(rows: seq<Row>): seq<seq<Cell>> {
    Distinct(KeysOf(rows))
  }

  function OfKey(rows: seq<Row>, key: seq<Cell>): seq<Row> {
    if rows == [] then []
    else OfKey(rows[..|rows| - 1], key) + (if rows[|rows| - 1].key == key then [rows[|rows| - 1]] else [])
  }

  function States(fns: seq<Fn>, rows: seq<Row>): seq<State> {
    seq(|fns|, j requires 0 <= j < |fns| => StateOf(fns[j], Column(rows, j)))
  }

  /** A worker's grouped answer over its rows: its groups in order of first appearance. */
  function Partials(q: Query, rows: seq<Row>): seq<Part> {
    var keys := Keys(rows);
    seq(|keys|, i requires 0 <= i < |keys| => Part(keys[i], States(q.fns, OfKey(rows, keys[i]))))
  }

  /** `row` with the first `n` cells of `cells` added under their names. */
  function Named(row: OutRow, names: seq<string>, cells: seq<Cell>, n: nat): OutRow
    requires n <= |names| && n <= |cells|
  {
    if n == 0 then row else Named(row, names, cells, n - 1)[names[n - 1] := cells[n - 1]]
  }

  function GroupCells(q: Query, key: seq<Cell>): OutRow {
    Named(map[], q.groups, key, if |q.groups| <= |key| then |q.groups| else |key|)
  }

  function Values(fns: seq<Fn>, rows: seq<Row>): seq<Cell> {
    seq(|fns|, j requires 0 <= j < |fns| => ValueOf(fns[j], Column(rows, j)))
  }

  /** The output row of the rows of one group. */
  function Answered(q: Query, key: seq<Cell>, rows: seq<Row>): OutRow
    requires Valid(q)
  {
    Named(GroupCells(q, key), q.names, Values(q.fns, rows), |q.fns|)
  }

  /** The answer of one scan over all rows, its groups in order of first appearance. */
  function WholeAnswer(q: Query, rows: seq<Row>): seq<OutRow>
    requires Valid(q)
  {
    var keys := Keys(rows);
    seq(|keys|, i requires 0 <= i < |keys| => Answered(q, keys[i], OfKey(rows, keys[i])))
  }

  /** All rows, chunk after chunk. */
  function Concat(chunks: seq<seq<Row>>): seq<Row> {
    if chunks == [] then [] else Concat(chunks[..|chunks| - 1]) + chunks[|chunks| - 1]
  }

  // ---- First appearances ----

  lemma DistinctSnoc<T(!new)>(s: seq<T>, x: T)
    ensures Distinct(s + [x]) == if x in s then Distinct(s) else Distinct(s) + [x]
  {
    assert (s + [x])[..|s|] == s;
  }

  lemma {:induction false} NoRepeats<T(!new)>(s: seq<T>, i: nat, j: nat)
    requires i < j < |Distinct(s)|
    ensures Distinct(s)[i] != Distinct(s)[j]
  {
    var front := s[..|s| - 1];
    if j < |Distinct(front)| { NoRepeats(front, i, j); }
    else { assert Distinct(front)[i] in front; }
  }

  /** Keeping only the first appearances in a later part loses nothing. */
  lemma {:induction false} DistinctRight<T(!new)>(a: seq<T>, b: seq<T>)
    ensures Distinct(a + Distinct(b)) == Distinct(a + b)
    decreases |b|
  {
    if b == [] {
      assert Distinct(b) == [];
    } else {
      hide Distinct;
      var front, last := b[..|b| - 1], b[|b| - 1];
      assert b == front + [last];
      DistinctRight(a, front);
      DistinctSnoc(front, last);
      DistinctSnoc(a + front, last);
      Slices.Assoc(a, front, [last]);
      if last !in front {
        DistinctSnoc(a + Distinct(front), last);
        Slices.Assoc(a, Distinct(front), [last]);
      }
    }
  }

  // ---- Rows of a group ----

  lemma OfKeySnoc(rows: seq<Row>, row: Row, key: seq<Cell>)
    ensures OfKey(rows + [row], key) == OfKey(rows, key) + if row.key == key then [row] else []
  {
    assert (rows + [row])[..|rows|] == rows;
  }

  lemma {:induction false} OfKeyConcat(a: seq<Row>, b: seq<Row>, key: seq<Cell>)
    ensures OfKey(a + b, key) == OfKey(a, key) + OfKey(b, key)
    decreases |b|
  {
    if b == [] { assert a + b == a; }
    else {
      var front, last := b[..|b| - 1], b[|b| - 1];
      OfKeyConcat(a, front, key);
      assert a + b == (a + front) + [last];
      assert b == front + [last];
      OfKeySnoc(a + front, last, key);
      OfKeySnoc(front, last, key);
    }
  }

  lemma {:induction false} NoneOfKey(rows: seq<Row>, key: seq<Cell>)
    ensures OfKey(rows, key) == [] <==> key !in KeysOf(rows)
  {
    if rows != [] {
      var front := rows[..|rows| - 1];
      NoneOfKey(front, key);
      assert KeysOf(rows) == KeysOf(front) + [rows[|rows| - 1].key];
    }
  }

  lemma ColumnsConcat(a: seq<Row>, b: seq<Row>, n: nat)
    ensures Columns(a + b, n) == Both(Columns(a, n), Columns(b, n))
  {
    forall j | 0 <= j < n ensures Column(a + b, j) == Column(a, j) + Column(b, j) {}
  }

  // ---- One object each, without GROUP BY ----

  /** The names of the aggregates, written into `row` from the accumulator. */
  method Finish(q: Query, row: OutRow, acc: Acc, ghost rows: seq<Row>) returns (r: OutRow)
    requires Valid(q) && StandsFor(q.fns, acc, Columns(rows, |q.fns|))
    requires forall j :: 0 <= j < |q.fns| ==> j in acc
    ensures r == Named(row, q.names, Values(q.fns, rows), |q.fns|)
  {
    hide StateOf, ValueOf, Finished, Fits;
    r := row;
    for j := 0 to |q.fns|
      invariant r == Named(row, q.names, Values(q.fns, rows), j)
    {
      FinishedValue(q.fns[j], acc, j, Columns(rows, |q.fns|)[j]);
      r := r[q.names[j] := Finished(q.fns[j], acc, j)];
    }
  }

  /** Without GROUP BY the merged answer is that of one scan over the rows of all workers, if there is a worker. */
  method MergeOne(q: Query, answers: seq<seq<State>>, ghost chunks: seq<seq<Row>>) returns (r: OutRow)
    requires Valid(q) && answers != [] && |answers| == |chunks|
    requires forall i :: 0 <= i < |chunks| ==> answers[i] == States(q.fns, chunks[i])
    ensures r == Answered(q, [], Concat(chunks))
  {
    hide StateOf, StandsFor, Both;
    var acc: Acc := map[];
    Nothing(q.fns);
    for i := 0 to |answers|
      invariant StandsFor(q.fns, acc, Columns(Concat(chunks[..i]), |q.fns|))
      invariant i > 0 ==> forall j :: 0 <= j < |q.fns| ==> j in acc
    {
      ConcatSnoc(chunks, i);
      ColumnsConcat(Concat(chunks[..i]), chunks[i], |q.fns|);
      acc := Fold(acc, answers[i], q.fns, Columns(Concat(chunks[..i]), |q.fns|), Columns(chunks[i], |q.fns|));
    }
    assert chunks[..|chunks|] == chunks;
    r := Finish(q, map[], acc, Concat(chunks));
  }

  lemma Nothing(fns: seq<Fn>)
    ensures StandsFor(fns, map[], Columns(Concat([]), |fns|))
  {
  }

  lemma ConcatSnoc(chunks: seq<seq<Row>>, i: nat)
    requires i < |chunks|
    ensures Concat(chunks[..i + 1]) == Concat(chunks[..i]) + chunks[i]
  {
    assert chunks[..i + 1][..i] == chunks[..i];
  }

  // ---- Group rows ----

  /** Accumulators by group key, and the keys in the order they were inserted. */
  datatype Groups = Groups(order: seq<seq<Cell>>, accs: map<seq<Cell>, Acc>)

  predicate Full(fns: seq<Fn>, acc: Acc) {
    forall j :: 0 <= j < |fns| ==> j in acc
  }

  /** The rows of group `k` folded so far: those of `rows`, and those of `more` once its part is seen. */
  function Folded(rows: seq<Row>, more: seq<Row>, seen: seq<seq<Cell>>, k: seq<Cell>): seq<Row> {
    OfKey(rows, k) + if k in seen then OfKey(more, k) else []
  }

  predicate HoldsGroup(fns: seq<Fn>, acc: Acc, rows: seq<Row>) {
    Full(fns, acc) && StandsFor(fns, acc, Columns(rows, |fns|))
  }

  /** `g` holds the groups of `rows` and of the parts `seen` of the answer over `more`. */
  ghost predicate Holds(fns: seq<Fn>, g: Groups, rows: seq<Row>, more: seq<Row>, seen: seq<seq<Cell>>) {
    && g.order == Distinct(KeysOf(rows) + seen)
    && (forall k :: k in g.accs <==> k in g.order)
    && (forall k :: k in g.accs ==> HoldsGroup(fns, g.accs[k], Folded(rows, more, seen, k)))
  }

  method MergeGroups(q: Query, answers: seq<seq<Part>>, ghost chunks: seq<seq<Row>>) returns (out: seq<OutRow>)
    requires Valid(q) && |answers| == |chunks|
    requires forall i :: 0 <= i < |chunks| ==> answers[i] == Partials(q, chunks[i])
    ensures out == WholeAnswer(q, Concat(chunks))
  {
    hide Holds, States, StateOf;
    var g := Groups([], map[]);
    NoGroups(q.fns);
    for i := 0 to |answers|
      invariant Holds(q.fns, g, Concat(chunks[..i]), [], [])
    {
      ghost var rows, more := Concat(chunks[..i]), chunks[i];
      ChunkStart(q.fns, g, rows, more);
      for p := 0 to |answers[i]|
        invariant Holds(q.fns, g, rows, more, Keys(more)[..p])
      {
        g := FoldPart(q.fns, g, answers[i][p], rows, more, p);
      }
      ChunkEnd(q.fns, g, rows, more);
      ConcatSnoc(chunks, i);
    }
    assert chunks[..|chunks|] == chunks;
    out := FinishAll(q, g, Concat(chunks));
  }

  lemma NoGroups(fns: seq<Fn>)
    ensures Holds(fns, Groups([], map[]), Concat([]), [], [])
  {
  }

  lemma ChunkStart(fns: seq<Fn>, g: Groups, rows: seq<Row>, more: seq<Row>)
    requires Holds(fns, g, rows, [], [])
    ensures Holds(fns, g, rows, more, Keys(more)[..0])
  {
    hide HoldsGroup, Distinct;
  }

  lemma ChunkEnd(fns: seq<Fn>, g: Groups, rows: seq<Row>, more: seq<Row>)
    requires Holds(fns, g, rows, more, Keys(more)[..|Keys(more)|])
    ensures Holds(fns, g, rows + more, [], [])
  {
    hide HoldsGroup, Distinct;
    assert Keys(more)[..|Keys(more)|] == Keys(more);
    DistinctRight(KeysOf(rows), KeysOf(more));
    assert KeysOf(rows) + KeysOf(more) == KeysOf(rows + more) + [];
    forall k | k in g.accs ensures Folded(rows, more, Keys(more), k) == Folded(rows + more, [], [], k) {
      OfKeyConcat(rows, more, k);
      NoneOfKey(more, k);
    }
  }

  /** One group row: its accumulator is made when the key is new, else the part is folded into it. */
  method FoldPart(fns: seq<Fn>, g: Groups, part: Part, ghost rows: seq<Row>, ghost more: seq<Row>, ghost p: nat)
    returns (r: Groups)
    requires p < |Keys(more)| && part == Part(Keys(more)[p], States(fns, OfKey(more, Keys(more)[p])))
    requires Holds(fns, g, rows, more, Keys(more)[..p])
    ensures Holds(fns, r, rows, more, Keys(more)[..p + 1])
  {
    hide Holds, Keys, StateOf, Both, StandsFor;
    var key := part.key;
    var acc: Acc := map[];
    if key in g.accs { acc := g.accs[key]; }
    GroupSoFar(fns, g, acc, rows, more, p);
    ColumnsConcat(OfKey(rows, key), OfKey(more, key), |fns|);
    acc := Fold(acc, part.states, fns, Columns(OfKey(rows, key), |fns|), Columns(OfKey(more, key), |fns|));
    r := Groups(if key in g.accs then g.order else g.order + [key], g.accs[key := acc]);
    OneMorePart(fns, g, acc, rows, more, p);
  }

  lemma GroupSoFar(fns: seq<Fn>, g: Groups, acc: Acc, rows: seq<Row>, more: seq<Row>, p: nat)
    requires p < |Keys(more)| && Holds(fns, g, rows, more, Keys(more)[..p])
    requires acc == if Keys(more)[p] in g.accs then g.accs[Keys(more)[p]] else map[]
    ensures StandsFor(fns, acc, Columns(OfKey(rows, Keys(more)[p]), |fns|))
  {
    var key, seen := Keys(more)[p], Keys(more)[..p];
    NotYet(more, p);
    NoneOfKey(rows, key);
    if key in g.accs {
      assert HoldsGroup(fns, acc, Folded(rows, more, seen, key));
      assert Folded(rows, more, seen, key) == OfKey(rows, key);
    } else {
      assert key in KeysOf(rows) ==> key in KeysOf(rows) + seen;
    }
  }

  lemma NotYet(more: seq<Row>, p: nat)
    requires p < |Keys(more)|
    ensures Keys(more)[p] !in Keys(more)[..p]
  {
    hide Distinct;
    forall i | 0 <= i < p ensures Keys(more)[i] != Keys(more)[p] { NoRepeats(KeysOf(more), i, p); }
  }

  lemma OneMorePart(fns: seq<Fn>, g: Groups, acc: Acc, rows: seq<Row>, more: seq<Row>, p: nat)
    requires p < |Keys(more)| && Holds(fns, g, rows, more, Keys(more)[..p])
    requires var key := Keys(more)[p]; HoldsGroup(fns, acc, OfKey(rows, key) + OfKey(more, key))
    ensures var key := Keys(more)[p];
            Holds(fns, Groups(if key in g.accs then g.order else g.order + [key], g.accs[key := acc]), rows, more, Keys(more)[..p + 1])
  {
    hide HoldsGroup, Distinct, Keys;
    var key, seen := Keys(more)[p], Keys(more)[..p];
    assert Keys(more)[..p + 1] == seen + [key];
    InsertedLast(rows, g, seen, key);
    var accs := g.accs[key := acc];
    forall k | k in accs ensures HoldsGroup(fns, accs[k], Folded(rows, more, seen + [key], k)) {
      FoldedNext(rows, more, seen, key, k);
    }
  }

  lemma InsertedLast(rows: seq<Row>, g: Groups, seen: seq<seq<Cell>>, key: seq<Cell>)
    requires g.order == Distinct(KeysOf(rows) + seen) && forall k :: k in g.accs <==> k in g.order
    ensures Distinct(KeysOf(rows) + (seen + [key])) == if key in g.accs then g.order else g.order + [key]
  {
    DistinctSnoc(KeysOf(rows) + seen, key);
    assert (KeysOf(rows) + seen) + [key] == KeysOf(rows) + (seen + [key]);
  }

  lemma FoldedNext(rows: seq<Row>, more: seq<Row>, seen: seq<seq<Cell>>, key: seq<Cell>, k: seq<Cell>)
    ensures Folded(rows, more, seen + [key], k)
         == if k == key then OfKey(rows, key) + OfKey(more, key) else Folded(rows, more, seen, k)
  {
  }

  method FinishAll(q: Query, g: Groups, ghost rows: seq<Row>) returns (out: seq<OutRow>)
    requires Valid(q) && Holds(q.fns, g, rows, [], [])
    ensures out == WholeAnswer(q, rows)
  {
    hide StandsFor, StateOf, Distinct;
    out := [];
    assert KeysOf(rows) + [] == KeysOf(rows);
    for i := 0 to |g.order|
      invariant |out| == i && forall k :: 0 <= k < i ==> out[k] == Answered(q, g.order[k], OfKey(rows, g.order[k]))
    {
      var key := g.order[i];
      assert HoldsGroup(q.fns, g.accs[key], Folded(rows, [], [], key));
      assert Folded(rows, [], [], key) == OfKey(rows, key);
      var row := Finish(q, GroupCells(q, key), g.accs[key], OfKey(rows, key));
      out := out + [row];
    }
  }
}
