/** Partial states of COUNT, SUM, MIN, MAX and AVG, and folding one more of them into an accumulator. */
module Aggregates {

  datatype Cell = Null | Num(n: real) | Text(s: string)

  /** An output row is a dictionary: a name given twice keeps the later value. */
  type OutRow = map<string, Cell>

  datatype Fn = Count | Sum | Min | Max | Avg

  /** What a worker answers for one aggregate: a value, or a sum and a count for AVG. */
  datatype State = Plain(v: Cell) | Partial(sum: Cell, count: nat)

  // ---- The order MIN, MAX and ORDER BY use ----

  predicate TextLess(a: string, b: string) {
    b != [] && (a == [] || a[0] < b[0] || (a[0] == b[0] && TextLess(a[1..], b[1..])))
  }

  /** Numbers by value and texts by code point; a column holds one kind. NULLs are never compared. */
  predicate Less(a: Cell, b: Cell) {
    match (a, b)
    case (Num(x), Num(y)) => x < y
    case (Num(_), Text(_)) => true
    case (Text(x), Text(y)) => TextLess(x, y)
    case _ => false
  }

  lemma {:induction false} TextOrder(a: string, b: string)
    ensures !(TextLess(a, b) && TextLess(b, a))
    ensures TextLess(a, b) || a == b || TextLess(b, a)
  {
    if a != [] && b != [] {
      TextOrder(a[1..], b[1..]);
      assert a == [a[0]] + a[1..];
      assert b == [b[0]] + b[1..];
    }
  }

  lemma {:induction false} TextChain(a: string, b: string, c: string)
    requires TextLess(a, b) && TextLess(b, c)
    ensures TextLess(a, c)
  {
    if a != [] && a[0] == b[0] && b[0] == c[0] { TextChain(a[1..], b[1..], c[1..]); }
  }

  lemma LessOrder(a: Cell, b: Cell)
    requires !a.Null? && !b.Null?
    ensures !(Less(a, b) && Less(b, a))
    ensures Less(a, b) || a == b || Less(b, a)
  {
    if a.Text? && b.Text? { TextOrder(a.s, b.s); }
  }

  lemma LessChain(a: Cell, b: Cell, c: Cell)
    requires Less(a, b) && Less(b, c)
    ensures Less(a, c)
  {
    if a.Text? && b.Text? && c.Text? { TextChain(a.s, b.s, c.s); }
  }

  // ---- What an aggregate of a column is ----

  function Present(column: seq<Cell>): nat {
    if column == [] then 0
    else Present(column[..|column| - 1]) + (if column[|column| - 1].Null? then 0 else 1)
  }

  /** The sum of the numbers, NULL where there is none. */
  function Total(column: seq<Cell>): (t: Cell)
    ensures !t.Text?
  {
    if column == [] then Null else Add(Total(column[..|column| - 1]), Number(column[|column| - 1]))
  }

  /** A cell as a term of a sum. The planner refuses sums of texts. */
  function Number(c: Cell): (n: Cell)
    ensures !n.Text?
  {
    if c.Num? then c else Null
  }

  function Add(a: Cell, b: Cell): (sum: Cell)
    requires !a.Text? && !b.Text?
    ensures !sum.Text?
  {
    if a.Null? then b else if b.Null? then a else Num(a.n + b.n)
  }

  predicate Better(fn: Fn, v: Cell, have: Cell) {
    if fn == Max then Less(have, v) else Less(v, have)
  }

  /** The kept extreme stays unless the new value beats it. */
  function Choose(fn: Fn, have: Cell, v: Cell): Cell {
    if v.Null? || (!have.Null? && !Better(fn, v, have)) then have else v
  }

  function Extreme(fn: Fn, column: seq<Cell>): Cell {
    if column == [] then Null else Choose(fn, Extreme(fn, column[..|column| - 1]), column[|column| - 1])
  }

  /** The state of `fn` over a column. */
  function StateOf(fn: Fn, column: seq<Cell>): State {
    match fn
    case Count => Plain(Num(Present(column) as real))
    case Sum => Plain(Total(column))
    case Avg => Partial(Total(column), Present(column))
    case _ => Plain(Extreme(fn, column))
  }

  /** The value of `fn` over a column, as one worker would answer it for all rows. */
  function ValueOf(fn: Fn, column: seq<Cell>): Cell {
    match fn
    case Count => Num(Present(column) as real)
    case Sum => Total(column)
    case Avg => if Total(column).Null? then Null else Num(Total(column).n / Divisor(Present(column)))
    case _ => Extreme(fn, column)
  }

  function Divisor(count: nat): real {
    if count == 0 then 1.0 else count as real
  }

  /** MIN and MAX are elements of the column that none beats. */
  lemma {:induction false} ExtremeIsExtreme(fn: Fn, column: seq<Cell>)
    ensures Extreme(fn, column).Null? <==> forall c :: c in column ==> c.Null?
    ensures !Extreme(fn, column).Null? ==> Extreme(fn, column) in column
    ensures forall c :: c in column && !c.Null? ==> !Better(fn, c, Extreme(fn, column))
  {
    if column != [] {
      var front, last := column[..|column| - 1], column[|column| - 1];
      ExtremeIsExtreme(fn, front);
      var e := Extreme(fn, front);
      assert column == front + [last];
      forall c | c in column && !c.Null? ensures !Better(fn, c, Extreme(fn, column)) {
        assert c in front || c == last;
        LessOrder(c, c);
        if !e.Null? && !last.Null? {
          if fn == Max && Less(e, last) && Less(last, c) { LessChain(e, last, c); }
          if fn != Max && Less(last, e) && Less(c, last) { LessChain(c, last, e); }
        }
      }
    }
  }

  /** `a` comes first: it is a proper beginning of `b`, or has the lower character where they first differ. */
  predicate TextBefore(a: string, b: string) {
    exists k :: 0 <= k < |b| && k <= |a| && a[..k] == b[..k] && (k == |a| || a[k] < b[k])
  }

  lemma {:induction false} TextLessIff(a: string, b: string)
    ensures TextLess(a, b) <==> TextBefore(a, b)
  {
    if a == [] || b == [] {
      if b != [] { assert a[..0] == b[..0]; }
    } else {
      TextLessIff(a[1..], b[1..]);
      if TextLess(a, b) {
        if a[0] < b[0] {
          assert a[..0] == b[..0];
        } else {
          var k :| 0 <= k < |b[1..]| && k <= |a[1..]| && a[1..][..k] == b[1..][..k] && (k == |a[1..]| || a[1..][k] < b[1..][k]);
          assert a[..k + 1] == [a[0]] + a[1..][..k] && b[..k + 1] == [b[0]] + b[1..][..k];
        }
      }
      if k :| 0 <= k < |b| && k <= |a| && a[..k] == b[..k] && (k == |a| || a[k] < b[k]) {
        if k > 0 {
          assert a[0] == a[..k][0] == b[..k][0] == b[0];
          assert a[1..][..k - 1] == a[..k][1..] && b[1..][..k - 1] == b[..k][1..];
          assert TextBefore(a[1..], b[1..]);
        }
      }
    }
  }

  /** `v` is NULL for a column of NULLs, else one of its cells, and no number of it is smaller, and no text of it earlier. */
  predicate IsLeast(column: seq<Cell>, v: Cell) {
    && (v.Null? <==> forall c :: c in column ==> c.Null?)
    && (!v.Null? ==> v in column)
    && (v.Num? ==> forall c :: c in column && c.Num? ==> v.n <= c.n)
    && (v.Text? ==> forall c :: c in column && c.Text? ==> !TextBefore(c.s, v.s))
  }

  predicate IsGreatest(column: seq<Cell>, v: Cell) {
    && (v.Null? <==> forall c :: c in column ==> c.Null?)
    && (!v.Null? ==> v in column)
    && (v.Num? ==> forall c :: c in column && c.Num? ==> v.n >= c.n)
    && (v.Text? ==> forall c :: c in column && c.Text? ==> !TextBefore(v.s, c.s))
  }

  /** MIN is the least of a column, and MAX the greatest. */
  lemma MinAndMax(column: seq<Cell>)
    ensures IsLeast(column, Extreme(Min, column)) && IsGreatest(column, Extreme(Max, column))
  {
    hide Extreme, TextLess, TextBefore;
    ExtremeIsExtreme(Min, column);
    ExtremeIsExtreme(Max, column);
    var low, high := Extreme(Min, column), Extreme(Max, column);
    forall c | c in column && c.Text? ensures low.Text? ==> !TextBefore(c.s, low.s) { if low.Text? { TextLessIff(c.s, low.s); } }
    forall c | c in column && c.Text? ensures high.Text? ==> !TextBefore(high.s, c.s) { if high.Text? { TextLessIff(high.s, c.s); } }
  }

  /** COUNT is the number of cells that are not NULL. */
  lemma {:induction false} CountIsCount(column: seq<Cell>)
    ensures Present(column) == |set i | 0 <= i < |column| && !column[i].Null?|
  {
    var front := if column == [] then [] else column[..|column| - 1];
    var there := set i | 0 <= i < |column| && !column[i].Null?;
    if column != [] {
      CountIsCount(front);
      var before := set i | 0 <= i < |front| && !front[i].Null?;
      assert there == before + if column[|column| - 1].Null? then {} else {|column| - 1};
    }
  }

  /** SUM: NULL when there is no number, else the numbers added up. */
  lemma {:induction false} SumIsSum(column: seq<Cell>)
    ensures Total(column).Null? <==> forall c :: c in column ==> !c.Num?
    ensures Total(column).Num? ==> Total(column).n == NumbersAdded(column, 0)
    decreases |column|
  {
    if column != [] {
      var front, last := column[..|column| - 1], column[|column| - 1];
      SumIsSum(front);
      AddedSnoc(column, 0);
      assert column == front + [last];
      if Total(front).Null? { NothingAdded(front, 0); }
    }
  }

  /** The numbers from cell `i` on, NULLs counting nothing. */
  function NumbersAdded(column: seq<Cell>, i: nat): real
    requires i <= |column|
    decreases |column| - i
  {
    if i == |column| then 0.0
    else (match column[i] case Num(n) => n case _ => 0.0) + NumbersAdded(column, i + 1)
  }

  lemma {:induction false} AddedSnoc(column: seq<Cell>, i: nat)
    requires i < |column|
    ensures NumbersAdded(column, i) == NumbersAdded(column[..|column| - 1], i) +
            match column[|column| - 1] case Num(n) => n case _ => 0.0
    decreases |column| - i
  {
    if i < |column| - 1 { AddedSnoc(column, i + 1); }
  }

  lemma {:induction false} NothingAdded(column: seq<Cell>, i: nat)
    requires i <= |column| && forall c :: c in column ==> !c.Num?
    ensures NumbersAdded(column, i) == 0.0
    decreases |column| - i
  {
    if i < |column| {
      assert column[i] in column;
      NothingAdded(column, i + 1);
    }
  }

  /** What each aggregate is, named from the column alone. */
  lemma ValuesAre(column: seq<Cell>)
    ensures ValueOf(Count, column) == Num(|set i | 0 <= i < |column| && !column[i].Null?| as real)
    ensures ValueOf(Sum, column).Null? <==> forall c :: c in column ==> !c.Num?
    ensures ValueOf(Sum, column).Null? || ValueOf(Sum, column) == Num(NumbersAdded(column, 0))
    ensures IsLeast(column, ValueOf(Min, column)) && IsGreatest(column, ValueOf(Max, column))
    ensures ValueOf(Avg, column).Null? <==> forall c :: c in column ==> !c.Num?
    ensures var n := |set i | 0 <= i < |column| && !column[i].Null?|;
      ValueOf(Avg, column).Null? || (n > 0 && ValueOf(Avg, column) == Num(NumbersAdded(column, 0) / n as real))
  {
    hide Extreme, TextBefore, NumbersAdded, Present;
    CountIsCount(column);
    SumIsSum(column);
    MinAndMax(column);
    SumNeedsCount(column);
  }

  // ---- Two columns, one after the other ----

  lemma {:induction false} PresentOfBoth(a: seq<Cell>, b: seq<Cell>)
    ensures Present(a + b) == Present(a) + Present(b)
    decreases |b|
  {
    if b == [] { assert a + b == a; }
    else {
      PresentOfBoth(a, b[..|b| - 1]);
      assert (a + b)[..|a + b| - 1] == a + b[..|b| - 1];
    }
  }

  lemma {:induction false} TotalOfBoth(a: seq<Cell>, b: seq<Cell>)
    ensures Total(a + b) == Add(Total(a), Total(b))
    decreases |b|
  {
    if b == [] { assert a + b == a; }
    else {
      TotalOfBoth(a, b[..|b| - 1]);
      assert (a + b)[..|a + b| - 1] == a + b[..|b| - 1];
    }
  }

  lemma ChooseChain(fn: Fn, a: Cell, b: Cell, c: Cell)
    ensures Choose(fn, Choose(fn, a, b), c) == Choose(fn, a, Choose(fn, b, c))
  {
    if !a.Null? && !b.Null? && !c.Null? {
      LessOrder(a, b);
      LessOrder(b, c);
      LessOrder(a, c);
      if Less(a, b) && Less(b, c) { LessChain(a, b, c); }
      if Less(c, b) && Less(b, a) { LessChain(c, b, a); }
    }
  }

  lemma {:induction false} ExtremeOfBoth(fn: Fn, a: seq<Cell>, b: seq<Cell>)
    ensures Extreme(fn, a + b) == Choose(fn, Extreme(fn, a), Extreme(fn, b))
    decreases |b|
  {
    if b == [] { assert a + b == a; }
    else {
      var front, last := b[..|b| - 1], b[|b| - 1];
      ExtremeOfBoth(fn, a, front);
      assert (a + b)[..|a + b| - 1] == a + front;
      ChooseChain(fn, Extreme(fn, a), Extreme(fn, front), last);
    }
  }

  // ---- Folding one part into the accumulator ----

  /** The accumulator of one group: the fields `_a0`, `_a1`, ... that a part has set so far. */
  type Acc = map<nat, State>

  /** A state of the form that `fn` makes. */
  predicate Fits(fn: Fn, s: State) {
    match fn
    case Avg => s.Partial? && !s.sum.Text?
    case Count => s.Plain? && !s.v.Text?
    case Sum => s.Plain? && !s.v.Text?
    case _ => s.Plain?
  }

  /** `acc[j]` after folding `part` into it, by the branch for `fn`. */
  function FoldOne(fn: Fn, acc: Acc, j: nat, part: State): (s: State)
    requires Fits(fn, part) && (j in acc ==> Fits(fn, acc[j]))
    ensures Fits(fn, s)
  {
    if fn == Avg then
      var s := if j in acc then acc[j] else Partial(Null, 0);
      Partial(Add(s.sum, part.sum), s.count + part.count)
    else
      var have := if j in acc then acc[j].v else Null;
      if fn == Count || fn == Sum then Plain(Add(have, part.v)) else Plain(Choose(fn, have, part.v))
  }

  /** `acc` stands for `columns`: it holds their states, or nothing has been folded and they are empty. */
  predicate StandsFor(fns: seq<Fn>, acc: Acc, columns: seq<seq<Cell>>) {
    && |columns| == |fns|
    && forall j :: 0 <= j < |fns| ==> if j in acc then acc[j] == StateOf(fns[j], columns[j]) else columns[j] == []
  }

  /** Folding the state of `b` into the state of `a`, or into nothing, gives the state of `a` then `b`. */
  lemma FoldOfStates(fn: Fn, acc: Acc, j: nat, a: seq<Cell>, b: seq<Cell>)
    requires if j in acc then acc[j] == StateOf(fn, a) else a == []
    ensures Fits(fn, StateOf(fn, b)) && (j in acc ==> Fits(fn, acc[j]))
    ensures FoldOne(fn, acc, j, StateOf(fn, b)) == StateOf(fn, a + b)
  {
    hide Present, Total, Extreme, Less;
    PresentOfBoth(a, b);
    TotalOfBoth(a, b);
    ExtremeOfBoth(fn, a, b);
    if a == [] { assert a + b == b; }
  }

  /** Concatenates column by column. */
  function Both(a: seq<seq<Cell>>, b: seq<seq<Cell>>): seq<seq<Cell>>
    requires |a| == |b|
  {
    seq(|a|, j requires 0 <= j < |a| => a[j] + b[j])
  }

  method Fold(acc: Acc, part: seq<State>, fns: seq<Fn>, ghost a: seq<seq<Cell>>, ghost b: seq<seq<Cell>>)
    returns (r: Acc)
    requires |part| == |fns| == |b| && forall j :: 0 <= j < |fns| ==> part[j] == StateOf(fns[j], b[j])
    requires StandsFor(fns, acc, a)
    ensures StandsFor(fns, r, Both(a, b)) && forall j :: 0 <= j < |fns| ==> j in r
  {
    hide StateOf, FoldOne, Fits;
    r := acc;
    for j := 0 to |fns|
      invariant forall i :: 0 <= i < j ==> i in r && r[i] == StateOf(fns[i], a[i] + b[i])
      invariant forall i :: j <= i < |fns| ==> (i in r <==> i in acc) && (i in acc ==> r[i] == acc[i])
    {
      FoldOfStates(fns[j], r, j, a[j], b[j]);
      var s := FoldBranch(fns[j], r, j, part[j]);
      r := r[j := s];
    }
  }

  /** The branches of the fold, each with the lookups the source makes. */
  method FoldBranch(fn: Fn, acc: Acc, j: nat, part: State) returns (s: State)
    requires Fits(fn, part) && (j in acc ==> Fits(fn, acc[j]))
    ensures s == FoldOne(fn, acc, j, part)
  {
    if fn == Avg {
      var known := if j in acc then acc[j] else Partial(Null, 0);
      s := Partial(Add(known.sum, part.sum), known.count + part.count);
    } else if fn == Count || fn == Sum {
      s := Plain(Add(if j in acc then acc[j].v else Null, part.v));
    } else if !part.v.Null? {
      var have := if j in acc then acc[j].v else Null;
      if have.Null? {
        s := part;
      } else if fn == Min {
        s := if Less(part.v, have) then part else acc[j];
      } else {
        s := if Less(have, part.v) then part else acc[j];
      }
    } else {
      s := if j in acc then acc[j] else Plain(Null);
    }
  }

  /** What `finish` writes for one aggregate. */
  function Finished(fn: Fn, acc: Acc, j: nat): Cell
    requires j in acc ==> Fits(fn, acc[j])
  {
    if j !in acc then Null
    else if fn != Avg then acc[j].v
    else if acc[j].count == 0 || acc[j].sum.Null? then Null
    else Num(acc[j].sum.n / acc[j].count as real)
  }

  lemma {:induction false} SumNeedsCount(column: seq<Cell>)
    ensures Present(column) == 0 ==> Total(column).Null?
  {
    if column != [] { SumNeedsCount(column[..|column| - 1]); }
  }

  /** Finishing the state of a column gives the aggregate of the column. */
  lemma FinishedValue(fn: Fn, acc: Acc, j: nat, column: seq<Cell>)
    requires j in acc && acc[j] == StateOf(fn, column)
    ensures Fits(fn, acc[j]) && Finished(fn, acc, j) == ValueOf(fn, column)
  {
    SumNeedsCount(column);
  }
}
