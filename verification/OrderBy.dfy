/** ORDER BY and LIMIT over the merged rows: one stable sort a term, from the last term to the first. */
module OrderBy {
  import opened Aggregates
  import opened StableSort
  import Slices

  datatype Term = Term(name: string, desc: bool)

  datatype Limit = All | First(n: int)

  datatype Ordered = Rows(rows: seq<OutRow>) | Refused(name: string)

  function At(row: OutRow, name: string): Cell {
    if name in row then row[name] else Null
  }

  /** One ORDER BY term: NULLs after everything else, whichever the direction. */
  predicate TermLe(t: Term, x: OutRow, y: OutRow) {
    var a, b := At(x, t.name), At(y, t.name);
    b.Null? || (!a.Null? && if t.desc then !Less(a, b) else !Less(b, a))
  }

  function ByTerm(t: Term): (OutRow, OutRow) -> bool {
    (x, y) => TermLe(t, x, y)
  }

  /** All terms, the first the most significant. */
  predicate TermsLe(terms: seq<Term>, x: OutRow, y: OutRow) {
    terms == [] || (TermLe(terms[0], x, y) && (!TermLe(terms[0], y, x) || TermsLe(terms[1..], x, y)))
  }

  function ByTerms(terms: seq<Term>): (OutRow, OutRow) -> bool {
    (x, y) => TermsLe(terms, x, y)
  }

  lemma TermPreorder(t: Term)
    ensures TotalPreorder(ByTerm(t))
  {
    forall x, y ensures TermLe(t, x, y) || TermLe(t, y, x) {
      TermTotal(t, x, y);
    }
    forall x, y, z | TermLe(t, x, y) && TermLe(t, y, z) ensures TermLe(t, x, z) {
      TermChain(t, x, y, z);
    }
  }

  lemma TermTotal(t: Term, x: OutRow, y: OutRow)
    ensures TermLe(t, x, y) || TermLe(t, y, x)
  {
    var a, b := At(x, t.name), At(y, t.name);
    if !a.Null? && !b.Null? { LessOrder(a, b); }
  }

  lemma TermChain(t: Term, x: OutRow, y: OutRow, z: OutRow)
    requires TermLe(t, x, y) && TermLe(t, y, z)
    ensures TermLe(t, x, z)
  {
    hide Less;
    var a, b, c := At(x, t.name), At(y, t.name), At(z, t.name);
    if !a.Null? && !b.Null? && !c.Null? {
      LessOrder(a, b);
      LessOrder(b, c);
      LessOrder(a, c);
      if Less(a, b) && Less(b, c) { LessChain(a, b, c); }
      if Less(c, b) && Less(b, a) { LessChain(c, b, a); }
    }
  }

  lemma {:induction false} TermsPreorder(terms: seq<Term>)
    ensures TotalPreorder(ByTerms(terms))
  {
    if terms != [] {
      hide TermLe;
      TermPreorder(terms[0]);
      TermsPreorder(terms[1..]);
      LexPreorder(ByTerm(terms[0]), ByTerms(terms[1..]));
      SameLe(terms);
      PreorderOfEqual((x, y) => Lex(ByTerm(terms[0]), ByTerms(terms[1..]), x, y), ByTerms(terms));
    }
  }

  lemma SameLe(terms: seq<Term>)
    requires terms != []
    ensures forall x, y :: ByTerms(terms)(x, y) <==> Lex(ByTerm(terms[0]), ByTerms(terms[1..]), x, y)
  {
  }

  lemma PreorderOfEqual(p: (OutRow, OutRow) -> bool, q: (OutRow, OutRow) -> bool)
    requires TotalPreorder(p) && forall x, y :: q(x, y) <==> p(x, y)
    ensures TotalPreorder(q)
  {
  }

  // ---- What the order means for two rows ----

  /** As one term wants two rows, the first before the second: NULLs last, smaller values first or larger ones with DESC. */
  predicate InOrder(t: Term, x: OutRow, y: OutRow) {
    var a, b := At(x, t.name), At(y, t.name);
    && (a.Null? ==> b.Null?)
    && (a.Num? && b.Num? ==> if t.desc then a.n >= b.n else a.n <= b.n)
    && (a.Text? && b.Text? ==> if t.desc then !TextBefore(a.s, b.s) else !TextBefore(b.s, a.s))
  }

  /** Two rows that agree on all terms before term `k` are as that term wants them. */
  predicate RowsInOrder(rows: seq<OutRow>, terms: seq<Term>) {
    forall i, j, k :: 0 <= i < j < |rows| && 0 <= k < |terms| && AgreeBefore(rows[i], rows[j], terms, k) ==>
      InOrder(terms[k], rows[i], rows[j])
  }

  predicate AgreeBefore(x: OutRow, y: OutRow, terms: seq<Term>, k: nat) {
    forall l :: 0 <= l < k && l < |terms| ==> At(x, terms[l].name) == At(y, terms[l].name)
  }

  lemma TermMeans(t: Term, x: OutRow, y: OutRow)
    ensures TermLe(t, x, y) ==> InOrder(t, x, y)
    ensures At(x, t.name) == At(y, t.name) ==> TermLe(t, x, y) && TermLe(t, y, x)
  {
    hide TextLess, TextBefore;
    var a, b := At(x, t.name), At(y, t.name);
    if a.Text? && b.Text? {
      TextLessIff(a.s, b.s);
      TextLessIff(b.s, a.s);
    }
    if !a.Null? { LessOrder(a, a); }
  }

  lemma {:induction false} TermsMean(terms: seq<Term>, x: OutRow, y: OutRow, k: nat)
    requires TermsLe(terms, x, y) && k < |terms| && AgreeBefore(x, y, terms, k)
    ensures InOrder(terms[k], x, y)
  {
    hide TermLe, InOrder, At;
    TermMeans(terms[0], x, y);
    if k > 0 {
      assert AgreeBefore(x, y, terms[1..], k - 1) by {
        forall l | 0 <= l < k - 1 && l < |terms[1..]| ensures At(x, terms[1..][l].name) == At(y, terms[1..][l].name) {
          assert terms[1..][l] == terms[l + 1];
        }
      }
      assert At(x, terms[0].name) == At(y, terms[0].name);
      TermsMean(terms[1..], x, y, k - 1);
    }
  }

  /** Sorted and cut off, the rows are in the order that the terms name. */
  lemma SortedInOrder(rows: seq<OutRow>, terms: seq<Term>, limit: Limit)
    ensures RowsInOrder(Limited(Sort(rows, ByTerms(terms)), limit), terms)
  {
    hide TermsLe, Sort, InOrder, AgreeBefore;
    TermsPreorder(terms);
    SortIsStable(rows, ByTerms(terms));
    var sorted := Sort(rows, ByTerms(terms));
    var out := Limited(sorted, limit);
    LimitedIsPrefix(sorted, limit);
    forall i, j, k | 0 <= i < j < |out| && 0 <= k < |terms| && AgreeBefore(out[i], out[j], terms, k)
      ensures InOrder(terms[k], out[i], out[j])
    {
      assert out[i] == sorted[i] && out[j] == sorted[j];
      TermsMean(terms, sorted[i], sorted[j], k);
    }
  }

  /** No limit keeps all rows; a limit of zero or more keeps that many from the front, and a negative one drops from the end. */
  lemma LimitedIsPrefix(rows: seq<OutRow>, limit: Limit)
    ensures Limited(rows, limit) <= rows
    ensures limit.All? ==> Limited(rows, limit) == rows
    ensures limit.First? && 0 <= limit.n <= |rows| ==> |Limited(rows, limit)| == limit.n
    ensures limit.First? && limit.n > |rows| ==> Limited(rows, limit) == rows
    ensures limit.First? && limit.n < 0 ==> |Limited(rows, limit)| == if |rows| + limit.n > 0 then |rows| + limit.n else 0
  {
  }

  // ---- One pass ----

  function Where(rows: seq<OutRow>, name: string, isNull: bool): (r: seq<OutRow>)
    ensures forall x :: x in r <==> x in rows && At(x, name).Null? == isNull
  {
    if rows == [] then []
    else (if At(rows[0], name).Null? == isNull then [rows[0]] else []) + Where(rows[1..], name, isNull)
  }

  /** Python's sort of the rows that have a value, with `reverse` keeping equal rows in order, then the NULL rows. */
  function Pass(rows: seq<OutRow>, t: Term): seq<OutRow> {
    Sort(Where(rows, t.name, false), (x, y) => KeyLe(t, x, y)) + Where(rows, t.name, true)
  }

  predicate KeyLe(t: Term, x: OutRow, y: OutRow) {
    if t.desc then !Less(At(x, t.name), At(y, t.name)) else !Less(At(y, t.name), At(x, t.name))
  }

  lemma {:induction false} InsertAgrees(x: OutRow, s: seq<OutRow>, p: (OutRow, OutRow) -> bool, q: (OutRow, OutRow) -> bool)
    requires forall y :: y in s ==> p(x, y) == q(x, y)
    ensures Insert(x, s, p) == Insert(x, s, q)
  {
    if s != [] { InsertAgrees(x, s[1..], p, q); }
  }

  lemma {:induction false} SortAgrees(s: seq<OutRow>, p: (OutRow, OutRow) -> bool, q: (OutRow, OutRow) -> bool)
    requires forall x, y :: x in s && y in s ==> p(x, y) == q(x, y)
    ensures Sort(s, p) == Sort(s, q)
  {
    if s != [] {
      SortAgrees(s[1..], p, q);
      assert s[0] in s;
      InsertAgrees(s[0], Sort(s[1..], p), p, q);
    }
  }

  lemma {:induction false} ClassOfWhere(rows: seq<OutRow>, t: Term, x: OutRow, isNull: bool)
    ensures Class(Where(rows, t.name, isNull), ByTerm(t), x)
         == if At(x, t.name).Null? == isNull then Class(rows, ByTerm(t), x) else []
  {
    if rows != [] {
      ClassOfWhere(rows[1..], t, x, isNull);
      var rest := Where(rows[1..], t.name, isNull);
      assert ([rows[0]] + rest)[1..] == rest;
      assert [] + rest == rest;
    }
  }

  lemma {:induction false} ClassOfBoth<T(!new)>(a: seq<T>, b: seq<T>, le: (T, T) -> bool, x: T)
    ensures Class(a + b, le, x) == Class(a, le, x) + Class(b, le, x)
  {
    if a == [] {
      assert a + b == b;
    } else {
      ClassOfBoth(a[1..], b, le, x);
      assert (a + b)[1..] == a[1..] + b;
    }
  }

  /** A pass is one stable sort of all rows by the term. */
  lemma PassIsSort(rows: seq<OutRow>, t: Term)
    ensures Pass(rows, t) == Sort(rows, ByTerm(t))
  {
    hide Less, Sort, Class;
    var present, nulls := Where(rows, t.name, false), Where(rows, t.name, true);
    var le := ByTerm(t);
    TermPreorder(t);
    SortAgrees(present, (x, y) => KeyLe(t, x, y), le);
    SortIsStable(present, le);
    var sorted := Sort(present, le);
    forall x ensures Class(sorted + nulls, le, x) == Class(rows, le, x) {
      ClassOfBoth(sorted, nulls, le, x);
      ClassOfWhere(rows, t, x, false);
      ClassOfWhere(rows, t, x, true);
    }
    SortIsStable(rows, le);
    NullsLast(sorted, nulls, t);
    SortedUnique(sorted + nulls, Sort(rows, le), le);
  }

  lemma NullsLast(a: seq<OutRow>, b: seq<OutRow>, t: Term)
    requires Sorted(a, ByTerm(t)) && forall x :: x in b ==> At(x, t.name).Null?
    ensures Sorted(a + b, ByTerm(t))
  {
  }

  // ---- All passes ----

  predicate SameColumns(rows: seq<OutRow>) {
    forall i, j :: 0 <= i < |rows| && 0 <= j < |rows| ==> rows[i].Keys == rows[j].Keys
  }

  predicate Known(rows: seq<OutRow>, terms: seq<Term>) {
    rows == [] || forall t :: t in terms ==> t.name in rows[0]
  }

  predicate SortedBy(rows: seq<OutRow>, sorted: seq<OutRow>, terms: seq<Term>) {
    sorted == Sort(rows, ByTerms(terms))
  }

  /** Sorting by the later terms and then by the first is sorting by all of them. */
  lemma {:induction false} OneMorePass(rows: seq<OutRow>, sorted: seq<OutRow>, terms: seq<Term>, k: nat)
    requires k < |terms| && SortedBy(rows, sorted, terms[k + 1..])
    ensures SortedBy(rows, Pass(sorted, terms[k]), terms[k..])
  {
    hide TermLe, Pass, Sort;
    var rest := terms[k + 1..];
    assert terms[k..][0] == terms[k] && terms[k..][1..] == rest;
    PassIsSort(sorted, terms[k]);
    TermPreorder(terms[k]);
    TermsPreorder(rest);
    SortAfterSort(rows, ByTerm(terms[k]), ByTerms(rest));
    SameLe(terms[k..]);
    SortAgrees(rows, (x, y) => Lex(ByTerm(terms[k]), ByTerms(rest), x, y), ByTerms(terms[k..]));
  }

  lemma {:induction false} NothingToSort(rows: seq<OutRow>, terms: seq<Term>)
    ensures SortedBy(rows, rows, terms[|terms|..])
  {
    TermsPreorder([]);
    SortOfSorted(rows, ByTerms([]));
  }

  lemma AllSorted(rows: seq<OutRow>, sorted: seq<OutRow>, terms: seq<Term>)
    requires SortedBy(rows, sorted, terms[0..])
    ensures sorted == Sort(rows, ByTerms(terms))
  {
    assert terms[0..] == terms;
  }

  function Limited(rows: seq<OutRow>, limit: Limit): seq<OutRow> {
    match limit
    case All => rows
    case First(n) => Slices.PySlice(rows, 0, n)
  }

  /** The rows in one stable order by all terms, NULLs last in each, then the limit; an unknown name is refused. */
  method Order(rows: seq<OutRow>, terms: seq<Term>, limit: Limit) returns (r: Ordered)
    requires SameColumns(rows)
    ensures r.Rows? <==> Known(rows, terms)
    ensures r.Rows? ==> r.rows == Limited(Sort(rows, ByTerms(terms)), limit)
    ensures r.Rows? ==> RowsInOrder(r.rows, terms)
    ensures r.Refused? ==> rows != [] && r.name !in rows[0] && exists t :: t in terms && t.name == r.name
  {
    hide SortedBy, SameColumns, Limited, RowsInOrder;
    SortedInOrder(rows, terms, limit);
    var sorted := rows;
    NothingToSort(rows, terms);
    for k := |terms| downto 0
      invariant SortedBy(rows, sorted, terms[k..])
      invariant forall i :: k <= i < |terms| ==> rows == [] || terms[i].name in rows[0]
    {
      SortKeepsColumns(rows, sorted, terms[k + 1..]);
      if sorted != [] && terms[k].name !in sorted[0] { return Refused(terms[k].name); }
      OneMorePass(rows, sorted, terms, k);
      sorted := OnePass(sorted, terms[k]);
    }
    r := Rows(Limited(sorted, limit));
    AllSorted(rows, sorted, terms);
  }

  lemma SortKeepsColumns(rows: seq<OutRow>, sorted: seq<OutRow>, terms: seq<Term>)
    requires SameColumns(rows) && SortedBy(rows, sorted, terms)
    ensures rows == [] <==> sorted == []
    ensures rows != [] ==> sorted[0].Keys == rows[0].Keys
  {
    hide Sort;
    if rows != [] {
      assert sorted[0] in rows;
    }
  }

  method OnePass(rows: seq<OutRow>, t: Term) returns (r: seq<OutRow>)
    ensures r == Pass(rows, t)
  {
    var present, nulls := [], [];
    for i := 0 to |rows|
      invariant present == Where(rows[..i], t.name, false) && nulls == Where(rows[..i], t.name, true)
    {
      assert rows[..i + 1] == rows[..i] + [rows[i]];
      WhereSnoc(rows[..i], rows[i], t.name, false);
      WhereSnoc(rows[..i], rows[i], t.name, true);
      if At(rows[i], t.name).Null? { nulls := nulls + [rows[i]]; } else { present := present + [rows[i]]; }
    }
    assert rows[..|rows|] == rows;
    r := Sort(present, (x, y) => KeyLe(t, x, y)) + nulls;
  }

  lemma WhereUnfold(x: OutRow, s: seq<OutRow>, name: string, isNull: bool)
    ensures Where([x] + s, name, isNull) == (if At(x, name).Null? == isNull then [x] else []) + Where(s, name, isNull)
  {
    Slices.Uncons(x, s);
  }

  lemma {:induction false} WhereSnoc(s: seq<OutRow>, x: OutRow, name: string, isNull: bool)
    ensures Where(s + [x], name, isNull) == Where(s, name, isNull) + if At(x, name).Null? == isNull then [x] else []
  {
    if s == [] {
      assert s + [x] == [x];
    } else {
      hide Where, At;
      var head, tail := s[0], s[1..];
      WhereSnoc(tail, x, name, isNull);
      WhereUnfold(head, tail, name, isNull);
      WhereUnfold(head, tail + [x], name, isNull);
      assert [head] + tail == s && [head] + (tail + [x]) == s + [x];
      Slices.Assoc(if At(head, name).Null? == isNull then [head] else [], Where(tail, name, isNull),
        if At(x, name).Null? == isNull then [x] else []);
    }
  }
}
