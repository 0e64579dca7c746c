/** The whole data path of a fanned-out query: cut the row groups, answer each run, merge, order and limit. */
module FanoutAnswer {
  import opened Aggregates
  import opened Merge
  import opened RowGroupSplit
  import opened OrderBy
  import StableSort
  import Slices

  /** The rows of every row group of every input. */
  type Table = seq<seq<seq<Row>>>

  function Counts(table: Table): seq<nat> {
    seq(|table|, i requires 0 <= i < |table| => |table[i]|)
  }

  function Inputs(table: Table): seq<seq<Row>> {
    seq(|table|, i requires 0 <= i < |table| => Concat(table[i]))
  }

  /** Every row, input after input. */
  function AllRows(table: Table): seq<Row> {
    Concat(Inputs(table))
  }

  predicate InTable(table: Table, u: Unit) {
    u.input < |table| && u.rg < |table[u.input]|
  }

  function RowsOfUnit(table: Table, u: Unit): seq<Row> {
    if InTable(table, u) then table[u.input][u.rg] else []
  }

  /** The rows a worker reads for the given units. */
  function RowsOf(table: Table, units: seq<Unit>): seq<Row> {
    if units == [] then [] else RowsOf(table, units[..|units| - 1]) + RowsOfUnit(table, units[|units| - 1])
  }

  /** The rows of each run. */
  function Chunks(table: Table, runs: seq<seq<Slice>>): seq<seq<Row>> {
    seq(|runs|, k requires 0 <= k < |runs| => RowsOf(table, Expand(runs[k])))
  }

  // ---- The runs hold every row once, in order ----

  lemma {:induction false} RowsOfBoth(table: Table, a: seq<Unit>, b: seq<Unit>)
    ensures RowsOf(table, a + b) == RowsOf(table, a) + RowsOf(table, b)
    decreases |b|
  {
    hide RowsOf, RowsOfUnit;
    if b == [] {
      assert a + b == a;
      NoRows(table);
    } else {
      var front, last := b[..|b| - 1], b[|b| - 1];
      RowsOfBoth(table, a, front);
      RowsOfSnoc(table, a + front, last);
      RowsOfSnoc(table, front, last);
      assert (a + front) + [last] == a + b && front + [last] == b;
      Slices.Assoc(RowsOf(table, a), RowsOf(table, front), RowsOfUnit(table, last));
    }
  }

  lemma RowsOfSnoc(table: Table, units: seq<Unit>, u: Unit)
    ensures RowsOf(table, units + [u]) == RowsOf(table, units) + RowsOfUnit(table, u)
  {
    assert (units + [u])[..|units|] == units;
  }

  lemma {:induction false} RowsOfInput(table: Table, input: nat, n: nat)
    requires input < |table| && n <= |table[input]|
    ensures RowsOf(table, InputUnits(input, 0, n)) == Concat(table[input][..n])
  {
    if n > 0 {
      RowsOfInput(table, input, n - 1);
      ConcatSnoc(table[input], n - 1);
      var u := InputUnits(input, 0, n);
      assert u[..n - 1] == InputUnits(input, 0, n - 1);
    }
  }

  lemma {:induction false} RowsOfUnits(table: Table, input: nat)
    requires input <= |table|
    ensures Concat(Inputs(table)[..input]) + RowsOf(table, UnitsFrom(Counts(table)[input..], input)) == AllRows(table)
    decreases |table| - input
  {
    hide Concat, RowsOf, InputUnits;
    var counts := Counts(table)[input..];
    NoRows(table);
    if input == |table| {
      assert Inputs(table)[..input] == Inputs(table);
      assert counts == [];
    } else {
      RowsOfUnits(table, input + 1);
      assert counts[1..] == Counts(table)[input + 1..] && counts[0] == |table[input]|;
      RowsOfBoth(table, InputUnits(input, 0, counts[0]), UnitsFrom(counts[1..], input + 1));
      RowsOfInput(table, input, |table[input]|);
      assert table[input][..|table[input]|] == table[input];
      ConcatSnoc(Inputs(table), input);
      Slices.Assoc(Concat(Inputs(table)[..input]), Concat(table[input]), RowsOf(table, UnitsFrom(counts[1..], input + 1)));
    }
  }

  lemma NoRows(table: Table)
    ensures RowsOf(table, []) == [] && Concat([]) == []
  {
  }

  lemma {:induction false} ChunksAreUnits(table: Table, runs: seq<seq<Slice>>)
    ensures Concat(Chunks(table, runs)) == RowsOf(table, ExpandAll(runs))
  {
    if runs != [] {
      var front, last := runs[..|runs| - 1], runs[|runs| - 1];
      ChunksAreUnits(table, front);
      RowsOfBoth(table, ExpandAll(front), Expand(last));
      assert Chunks(table, runs)[..|runs| - 1] == Chunks(table, front);
    }
  }

  /** A split into at least one run covers the table: the rows of the runs, one run after another, are all rows. */
  lemma SplitCoversTable(table: Table, n: nat, runs: seq<seq<Slice>>)
    requires n > 0 && IsSplit(Units(Counts(table)), n, runs)
    ensures Concat(Chunks(table, runs)) == AllRows(table)
  {
    hide Concat, RowsOf, Expand, IsSplit;
    SplitReadsEverything(Units(Counts(table)), n, runs);
    ChunksAreUnits(table, runs);
    RowsOfUnits(table, 0);
    NoRows(table);
    assert Counts(table)[0..] == Counts(table) && Inputs(table)[..0] == [];
  }

  // ---- The answer ----

  predicate KeysFit(q: Query, table: Table) {
    forall row :: row in AllRows(table) ==> |row.key| == |q.groups|
  }

  /** The payloads: one a run, or one over all inputs when there is no run. */
  method ChunksFor(table: Table, workers: int) returns (chunks: seq<seq<Row>>)
    ensures chunks != [] && Concat(chunks) == AllRows(table)
    ensures |chunks| == if workers <= 0 || Units(Counts(table)) == [] then 1 else Lesser(workers, |Units(Counts(table))|)
  {
    hide Concat, RowsOf, Expand, IsSplit, Units;
    var runs := Split(Counts(table), workers);
    SplitLength(Counts(table), workers, runs);
    if runs == [] {
      chunks := [AllRows(table)];
      OneChunk(AllRows(table));
    } else {
      chunks := Chunks(table, runs);
      SplitCoversTable(table, |runs|, runs);
    }
  }

  lemma SplitLength(counts: seq<nat>, workers: int, runs: seq<seq<Slice>>)
    requires IsSplit(Units(counts), if workers <= 0 then 0 else Lesser(workers, |Units(counts)|), runs)
    ensures |runs| == if workers <= 0 || Units(counts) == [] then 0 else Lesser(workers, |Units(counts)|)
  {
  }

  lemma OneChunk(rows: seq<Row>)
    ensures Concat([rows]) == rows
  {
  }

  /** What every worker answers, merged, is what one worker answers for the whole table, whatever the number of workers. */
  method AnswerOne(table: Table, q: Query, workers: int) returns (row: OutRow)
    requires Valid(q)
    ensures row == Answered(q, [], AllRows(table))
  {
    hide Concat, States, Answered;
    var chunks := ChunksFor(table, workers);
    var answers := seq(|chunks|, i requires 0 <= i < |chunks| => States(q.fns, chunks[i]));
    row := MergeOne(q, answers, chunks);
  }

  /** With GROUP BY, ORDER BY and LIMIT too: the result does not depend on the number of workers. */
  method AnswerGroups(table: Table, q: Query, workers: int, terms: seq<Term>, limit: Limit) returns (r: Ordered)
    requires Valid(q) && KeysFit(q, table)
    ensures r.Rows? <==> Known(WholeAnswer(q, AllRows(table)), terms)
    ensures r.Rows? ==> r.rows == Limited(StableSort.Sort(WholeAnswer(q, AllRows(table)), ByTerms(terms)), limit)
    ensures r.Rows? ==> RowsInOrder(r.rows, terms)
  {
    hide Concat, Partials, WholeAnswer, Known, Limited, RowsInOrder, AllRows, KeysFit;
    var chunks := ChunksFor(table, workers);
    var answers := seq(|chunks|, i requires 0 <= i < |chunks| => Partials(q, chunks[i]));
    var merged := MergeGroups(q, answers, chunks);
    WholeHasColumns(q, table);
    r := Order(merged, terms, limit);
  }

  function NameSet(names: seq<string>, n: nat): set<string>
    requires n <= |names|
  {
    set i | 0 <= i < n :: names[i]
  }

  lemma {:induction false} NamedKeys(row: OutRow, names: seq<string>, cells: seq<Cell>, n: nat)
    requires n <= |names| && n <= |cells|
    ensures Named(row, names, cells, n).Keys == row.Keys + NameSet(names, n)
  {
    if n > 0 {
      NamedKeys(row, names, cells, n - 1);
      assert NameSet(names, n) == NameSet(names, n - 1) + {names[n - 1]};
    } else {
      assert NameSet(names, 0) == {};
    }
  }

  /** Every output row has the same columns: the group names and the aggregate names. */
  lemma WholeHasColumns(q: Query, table: Table)
    requires Valid(q) && KeysFit(q, table)
    ensures SameColumns(WholeAnswer(q, AllRows(table)))
  {
    var rows := AllRows(table);
    var out, keys := WholeAnswer(q, rows), Keys(rows);
    var names := NameSet(q.groups, |q.groups|) + NameSet(q.names, |q.fns|);
    forall i | 0 <= i < |out| ensures out[i].Keys == names {
      assert keys[i] in KeysOf(rows);
      var r :| 0 <= r < |rows| && KeysOf(rows)[r] == keys[i];
      assert rows[r] in rows;
      NamedKeys(map[], q.groups, keys[i], |q.groups|);
      NamedKeys(GroupCells(q, keys[i]), q.names, Values(q.fns, OfKey(rows, keys[i])), |q.fns|);
    }
  }
}
