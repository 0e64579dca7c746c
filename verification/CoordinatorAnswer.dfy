/** The coordinator's protocol and the data path together: what an answered query of any run returns. */
module CoordinatorAnswer {
  import C = Coordinator
  import opened Aggregates
  import opened Merge
  import opened RowGroupSplit
  import opened FanoutAnswer
  import opened OrderBy
  import StableSort

  /** The protocol counts row groups as the split does. */
  lemma {:induction false} TotalIsUnits(counts: seq<nat>, input: nat)
    ensures C.Total(counts) == |UnitsFrom(counts, input)|
    decreases |counts|
  {
    if counts != [] { TotalIsUnits(counts[1..], input + 1); }
  }

  function Runs(table: Table, workers: int): nat {
    if workers <= 0 then 0 else Lesser(workers, |Units(Counts(table))|)
  }

  /** The rows each payload asks for: those of one run, or all of them when there is no run. */
  ghost predicate PayloadRows(table: Table, workers: int, chunks: seq<seq<Row>>) {
    exists runs :: IsSplit(Units(Counts(table)), Runs(table, workers), runs)
      && chunks == if runs == [] then [AllRows(table)] else Chunks(table, runs)
  }

  lemma PayloadRowsOf(table: Table, workers: int, runs: seq<seq<Slice>>)
    requires IsSplit(Units(Counts(table)), Runs(table, workers), runs)
    ensures PayloadRows(table, workers, if runs == [] then [AllRows(table)] else Chunks(table, runs))
  {
  }

  /** As many payloads are sent as the split has runs, and together they ask for every row once, in order. */
  lemma PayloadsCover(table: Table, workers: int, chunks: seq<seq<Row>>)
    requires PayloadRows(table, workers, chunks)
    ensures |chunks| == C.Payloads(Counts(table), workers) && Concat(chunks) == AllRows(table)
  {
    hide Concat, RowsOf, Expand, IsRun, Units;
    var runs :| IsSplit(Units(Counts(table)), Runs(table, workers), runs)
      && chunks == if runs == [] then [AllRows(table)] else Chunks(table, runs);
    UnitsCounted(table);
    if runs == [] { OneChunk(AllRows(table)); } else { SplitCoversTable(table, |runs|, runs); }
  }

  lemma UnitsCounted(table: Table)
    ensures C.Total(Counts(table)) == |Units(Counts(table))|
  {
    TotalIsUnits(Counts(table), 0);
  }

  /** The preparations counted the table's row groups. */
  ghost predicate CountsRight(q: C.Query, log: seq<C.Entry>, r: nat, table: Table) {
    forall p :: C.PlannedFrom(q, log, r, p) ==> C.CountsOf(q, p) == Counts(table)
  }

  /** Every partial answer of query `r` reads as what is wanted for its payload's rows. */
  ghost predicate PartsRight<T(!new)>(want: seq<Row> -> T, log: seq<C.Entry>, r: nat, read: string -> T, chunks: seq<seq<Row>>) {
    forall i, text :: 0 <= i < |chunks| && C.Entry(r, C.Partial(i, text)) in log ==> read(text) == want(chunks[i])
  }

  /** Query `r` was answered with `answers`, the preparations counted right, and the workers answered as is wanted. */
  ghost predicate AnsweredRight<T(!new)>(queries: seq<C.Query>, moves: seq<C.Move>, r: nat, at: nat, answers: seq<string>,
                                         table: Table, want: seq<Row> -> T, read: string -> T) {
    var log := C.LogOf(queries, moves);
    && r < |queries| && at < |log| && log[at] == C.Entry(r, C.Finished(C.Answered(answers)))
    && CountsRight(queries[r], log, r, table)
    && forall chunks :: PayloadRows(table, queries[r].workers, chunks) ==> PartsRight(want, log, r, read, chunks)
  }

  /** The answers of an answered query are what was wanted for all payloads, in order. */
  lemma AnswersAreParts<T(!new)>(queries: seq<C.Query>, moves: seq<C.Move>, r: nat, at: nat, answers: seq<string>,
                                 table: Table, want: seq<Row> -> T, read: string -> T, chunks: seq<seq<Row>>)
    requires AnsweredRight(queries, moves, r, at, answers, table, want, read)
    requires PayloadRows(table, queries[r].workers, chunks)
    ensures |answers| == |chunks| && forall i :: 0 <= i < |answers| ==> read(answers[i]) == want(chunks[i])
  {
    hide C.LogOf, C.Payloads, C.CountsOf, PayloadRows, Concat, C.Early, AllRows;
    var log := C.LogOf(queries, moves);
    C.LogIsSafe(queries, moves);
    assert C.Allowed(queries, log[..at], log[at]);
    var p :| C.AnswerBacked(queries[r], log[..at], r, answers, p);
    assert C.PlannedFrom(queries[r], log, r, p);
    PayloadsCover(table, queries[r].workers, chunks);
    assert PartsRight(want, log, r, read, chunks);
    forall i | 0 <= i < |answers| ensures read(answers[i]) == want(chunks[i]) {
      assert C.Entry(r, C.Partial(i, answers[i])) in log;
    }
  }

  /** The parts of an answered query, and the rows they stand for. */
  method Collect<T(!new)>(queries: seq<C.Query>, ghost moves: seq<C.Move>, r: nat, ghost at: nat, answers: seq<string>,
                          table: Table, ghost want: seq<Row> -> T, read: string -> T) returns (parts: seq<T>, ghost chunks: seq<seq<Row>>)
    requires AnsweredRight(queries, moves, r, at, answers, table, want, read)
    ensures |parts| == |chunks| && chunks != [] && Concat(chunks) == AllRows(table)
    ensures forall i :: 0 <= i < |parts| ==> parts[i] == want(chunks[i])
  {
    hide AllRows, Concat, IsSplit, C.LogOf, CountsRight, PartsRight;
    var runs := Split(Counts(table), queries[r].workers);
    chunks := if runs == [] then [AllRows(table)] else Chunks(table, runs);
    PayloadRowsOf(table, queries[r].workers, runs);
    AnswersAreParts(queries, moves, r, at, answers, table, want, read, chunks);
    PayloadsCover(table, queries[r].workers, chunks);
    parts := seq(|answers|, i requires 0 <= i < |answers| => read(answers[i]));
  }

  function PartialsOf(q: Query): seq<Row> -> seq<Part> { rows => Partials(q, rows) }

  function StatesOf(q: Query): seq<Row> -> seq<State> { rows => States(q.fns, rows) }

  /**
   * A grouped query that some run of the coordinator answers, beside any other queries and with any replies: when the
   * preparations counted right and the workers answered right, what is returned is the answer of one scan of the table.
   */
  method AnswerQuery(queries: seq<C.Query>, ghost moves: seq<C.Move>, r: nat, ghost at: nat, answers: seq<string>,
                     q: Query, table: Table, read: string -> seq<Part>, terms: seq<Term>, limit: Limit) returns (out: Ordered)
    requires Valid(q) && KeysFit(q, table)
    requires AnsweredRight(queries, moves, r, at, answers, table, PartialsOf(q), read)
    ensures out.Rows? <==> Known(WholeAnswer(q, AllRows(table)), terms)
    ensures out.Rows? ==> out.rows == Limited(StableSort.Sort(WholeAnswer(q, AllRows(table)), ByTerms(terms)), limit)
    ensures out.Rows? ==> RowsInOrder(out.rows, terms)
  {
    hide Partials, WholeAnswer, Known, Limited, RowsInOrder, AllRows, KeysFit, Concat, AnsweredRight;
    var parts, chunks := Collect(queries, moves, r, at, answers, table, PartialsOf(q), read);
    var merged := MergeGroups(q, parts, chunks);
    WholeHasColumns(q, table);
    out := Order(merged, terms, limit);
  }

  /** The same without GROUP BY: one row, as one scan of the table gives it. */
  method AnswerUngrouped(queries: seq<C.Query>, ghost moves: seq<C.Move>, r: nat, ghost at: nat, answers: seq<string>,
                         q: Query, table: Table, read: string -> seq<State>) returns (row: OutRow)
    requires Valid(q)
    requires AnsweredRight(queries, moves, r, at, answers, table, StatesOf(q), read)
    ensures row == Answered(q, [], AllRows(table))
  {
    hide States, Answered, AllRows, Concat, AnsweredRight;
    var parts, chunks := Collect(queries, moves, r, at, answers, table, StatesOf(q), read);
    row := MergeOne(q, parts, chunks);
  }
}
