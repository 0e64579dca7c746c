/** Cutting the row groups of all inputs into contiguous runs. */
module RowGroupSplit {

  /** Row group `rg` of input `input`. */
  datatype Unit = Unit(input: nat, rg: nat)

  /** Row groups `start` up to but not including `end` of one input. */
  datatype Slice = Slice(input: nat, start: nat, end: nat)

  // ---- The units of all inputs, in order ----

  function InputUnits(input: nat, from: nat, to: nat): (u: seq<Unit>)
    ensures |u| == if from <= to then to - from else 0
    ensures forall i :: 0 <= i < |u| ==> u[i] == Unit(input, from + i)
  {
    if from < to then InputUnits(input, from, to - 1) + [Unit(input, to - 1)] else []
  }

  function UnitsFrom(counts: seq<nat>, input: nat): seq<Unit>
    decreases |counts|
  {
    if counts == [] then [] else InputUnits(input, 0, counts[0]) + UnitsFrom(counts[1..], input + 1)
  }

  function Units(counts: seq<nat>): seq<Unit> {
    UnitsFrom(counts, 0)
  }

  /** What a run asks a worker to read. */
  function Expand(run: seq<Slice>): seq<Unit> {
    if run == [] then []
    else
      var last := run[|run| - 1];
      Expand(run[..|run| - 1]) + InputUnits(last.input, last.start, last.end)
  }

  predicate Nonempty(run: seq<Slice>) {
    forall s :: s in run ==> s.start < s.end
  }

  predicate OneSliceAnInput(run: seq<Slice>) {
    forall i :: 0 < i < |run| ==> run[i - 1].input < run[i].input
  }

  /** Each unit follows the one before in its input, or starts a later input. */
  predicate Contiguous(u: seq<Unit>) {
    forall i :: 0 < i < |u| ==>
      (u[i].input == u[i - 1].input && u[i].rg == u[i - 1].rg + 1) || (u[i].input > u[i - 1].input && u[i].rg == 0)
  }

  lemma {:induction false} UnitsContiguous(counts: seq<nat>, input: nat)
    ensures Contiguous(UnitsFrom(counts, input))
    ensures forall u :: u in UnitsFrom(counts, input) ==> u.input >= input
    ensures UnitsFrom(counts, input) != [] ==> UnitsFrom(counts, input)[0].rg == 0
    decreases |counts|
  {
    if counts != [] { UnitsContiguous(counts[1..], input + 1); }
  }

  // ---- One run ----

  /** The last slice grows while the input stays the same; else a new one starts. */
  function Extend(run: seq<Slice>, u: Unit): seq<Slice> {
    if run != [] && run[|run| - 1].input == u.input then run[..|run| - 1] + [run[|run| - 1].(end := u.rg + 1)]
    else run + [Slice(u.input, u.rg, u.rg + 1)]
  }

  /** `run` reads exactly `u`, with one slice for each input. */
  predicate Reads(run: seq<Slice>, u: seq<Unit>) {
    Nonempty(run) && OneSliceAnInput(run) && Expand(run) == u
  }

  predicate Compressed(run: seq<Slice>, u: seq<Unit>) {
    && Reads(run, u)
    && |run| == if u == [] then 0 else 1 + Changes(u)
  }

  lemma ExpandSnoc(run: seq<Slice>, s: Slice)
    ensures Expand(run + [s]) == Expand(run) + InputUnits(s.input, s.start, s.end)
  {
    assert (run + [s])[..|run|] == run;
  }

  lemma LastUnit(run: seq<Slice>)
    requires run != [] && Nonempty(run)
    ensures var u, last := Expand(run), run[|run| - 1]; u != [] && u[|u| - 1] == Unit(last.input, last.end - 1)
  {
    var last := run[|run| - 1];
    assert last in run;
    var part := InputUnits(last.input, last.start, last.end);
    assert part[|part| - 1] == Unit(last.input, last.end - 1);
  }

  /** Where `u` is of the last slice's input, it is the next one there. */
  predicate Follows(run: seq<Slice>, u: Unit) {
    run != [] && run[|run| - 1].input == u.input ==> run[|run| - 1].end == u.rg
  }

  lemma ExtendReads(run: seq<Slice>, u: Unit)
    requires Nonempty(run) && Follows(run, u)
    ensures Nonempty(Extend(run, u)) && Expand(Extend(run, u)) == Expand(run) + [u]
  {
    hide Expand, InputUnits;
    ExpandSnoc(run, Slice(u.input, u.rg, u.rg + 1));
    OneUnit(u);
    if run != [] {
      GrowReads(run[..|run| - 1], run[|run| - 1]);
      assert run == run[..|run| - 1] + [run[|run| - 1]];
    }
  }

  lemma OneUnit(u: Unit)
    ensures InputUnits(u.input, u.rg, u.rg + 1) == [u]
  {
  }

  lemma GrowReads(front: seq<Slice>, last: Slice)
    requires last.start <= last.end
    ensures Expand(front + [last.(end := last.end + 1)]) == Expand(front + [last]) + [Unit(last.input, last.end)]
  {
    ExpandSnoc(front, last);
    ExpandSnoc(front, last.(end := last.end + 1));
    assert InputUnits(last.input, last.start, last.end + 1)
        == InputUnits(last.input, last.start, last.end) + [Unit(last.input, last.end)];
  }

  lemma ExtendKeeps(run: seq<Slice>, u: seq<Unit>, k: nat)
    requires Contiguous(u) && k < |u| && Compressed(run, u[..k])
    ensures Compressed(Extend(run, u[k]), u[..k + 1])
  {
    hide Expand, Changes;
    assert u[..k + 1] == u[..k] + [u[k]];
    if k > 0 {
      LastUnit(run);
      assert u[..k][k - 1] == u[k - 1];
    } else {
      assert u[..k] == [];
    }
    ExtendReads(run, u[k]);
    ChangesSnoc(u, k);
    NoChangesOfNone();
  }

  lemma NoChangesOfNone()
    ensures Changes([]) == 0
  {
  }

  method Compress(u: seq<Unit>) returns (run: seq<Slice>)
    requires Contiguous(u)
    ensures Compressed(run, u)
  {
    hide Compressed;
    run := [];
    NothingCompressed(u);
    for k := 0 to |u|
      invariant Compressed(run, u[..k])
    {
      ExtendKeeps(run, u, k);
      if run != [] && run[|run| - 1].input == u[k].input {
        run := run[..|run| - 1] + [Slice(u[k].input, run[|run| - 1].start, u[k].rg + 1)];
      } else {
        run := run + [Slice(u[k].input, u[k].rg, u[k].rg + 1)];
      }
    }
    assert u[..|u|] == u;
  }

  lemma NothingCompressed(u: seq<Unit>)
    ensures Compressed([], u[..0])
  {
    assert u[..0] == [];
  }

  /** Only one list of slices reads `u` with one slice an input. */
  lemma {:induction false} OnlyOneReads(a: seq<Slice>, b: seq<Slice>, u: seq<Unit>)
    requires Reads(a, u) && Reads(b, u)
    ensures a == b
    decreases |u|
  {
    hide Reads;
    NoneReadByNone(a, u);
    NoneReadByNone(b, u);
    if u != [] {
      ShorterReads(a, u);
      ShorterReads(b, u);
      OnlyOneReads(ShorterRun(a), ShorterRun(b), u[..|u| - 1]);
    }
  }

  lemma NoneReadByNone(run: seq<Slice>, u: seq<Unit>)
    requires Reads(run, u)
    ensures u == [] <==> run == []
  {
    hide InputUnits;
    if run != [] { LastUnit(run); }
  }

  /** The slices of `front + [last]` without the last unit. */
  function Shorter(front: seq<Slice>, last: Slice): seq<Slice> {
    if last.end - last.start > 1 then front + [last.(end := last.end - 1)] else front
  }

  function ShorterRun(run: seq<Slice>): seq<Slice>
    requires run != []
  {
    Shorter(run[..|run| - 1], run[|run| - 1])
  }

  lemma ShorterReads(run: seq<Slice>, u: seq<Unit>)
    requires run != [] && u != [] && Reads(run, u)
    ensures Reads(ShorterRun(run), u[..|u| - 1])
    ensures run == Extend(ShorterRun(run), u[|u| - 1])
  {
    hide Expand, InputUnits, Shorter, Extend, OneSliceAnInput;
    var front, last := run[..|run| - 1], run[|run| - 1];
    assert run == front + [last];
    ShorterFits(front, last);
    ShorterExpands(front, last);
    var v := Expand(Shorter(front, last));
    assert u[..|u| - 1] == v && u[|u| - 1] == Unit(last.input, last.end - 1);
  }

  lemma ShorterFits(front: seq<Slice>, last: Slice)
    requires Nonempty(front + [last]) && OneSliceAnInput(front + [last])
    ensures Nonempty(Shorter(front, last)) && OneSliceAnInput(Shorter(front, last))
    ensures last.start < last.end
    ensures front + [last] == Extend(Shorter(front, last), Unit(last.input, last.end - 1))
  {
    hide Extend, OneSliceAnInput;
    var run := front + [last];
    assert run[|front|] == last;
    assert last in run && (forall s :: s in front ==> s in run);
    FrontAscends(front, last);
    ExtendEither(front, last);
  }

  lemma FrontAscends(front: seq<Slice>, last: Slice)
    requires OneSliceAnInput(front + [last])
    ensures OneSliceAnInput(front)
    ensures forall e :: OneSliceAnInput(front + [last.(end := e)])
    ensures front != [] ==> front[|front| - 1].input < last.input
  {
    var run := front + [last];
    forall i | 0 < i <= |front| ensures run[i - 1].input < run[i].input {}
    assert run[|front|] == last;
    assert forall i :: 0 <= i < |front| ==> front[i] == run[i];
  }

  lemma ExtendEither(front: seq<Slice>, last: Slice)
    requires last.start < last.end && (front != [] ==> front[|front| - 1].input < last.input)
    ensures front + [last] == Extend(Shorter(front, last), Unit(last.input, last.end - 1))
  {
    var short := front + [last.(end := last.end - 1)];
    assert short[..|short| - 1] == front && short[|short| - 1] == last.(end := last.end - 1);
  }

  lemma ShorterExpands(front: seq<Slice>, last: Slice)
    requires last.start < last.end
    ensures Expand(front + [last]) == Expand(Shorter(front, last)) + [Unit(last.input, last.end - 1)]
  {
    hide Expand, InputUnits;
    GrowReads(front, Slice(last.input, last.start, last.end - 1));
    ExpandSnoc(front, Slice(last.input, last.start, last.end - 1));
    NoUnits(last.input, last.start);
  }

  lemma NoUnits(input: nat, start: nat)
    ensures InputUnits(input, start, start) == []
  {
  }

  // ---- All runs ----

  function Cut(k: nat, total: nat, n: nat): nat
    requires n > 0
  {
    k * total / n
  }

  lemma CutBounds(k: nat, total: nat, n: nat)
    requires k < n
    ensures Cut(k, total, n) <= Cut(k + 1, total, n) <= total
    ensures total / n <= Cut(k + 1, total, n) - Cut(k, total, n) <= total / n + 1
  {
    hide Cut;
    CutSplit(k, total, n);
    CutSplit(k + 1, total, n);
    StepUp(k, total / n, total % n, n);
    CutInside(k + 1, total, n);
  }

  lemma StepUp(k: nat, q: nat, r: nat, n: nat)
    requires r < n
    ensures q <= ((k + 1) * q + (k + 1) * r / n) - (k * q + k * r / n) <= q + 1
  {
    DivStep(k * r, r, n);
    assert (k + 1) * r == k * r + r;
  }

  lemma CutSplit(k: nat, total: nat, n: nat)
    requires n > 0
    ensures Cut(k, total, n) == k * (total / n) + k * (total % n) / n
  {
    var q, r := total / n, total % n;
    calc {
      k * total;
      k * (q * n + r);
      k * (q * n) + k * r;
      (k * q) * n + k * r;
    }
    DivPlus(k * q, k * r, n);
  }

  lemma CutInside(k: nat, total: nat, n: nat)
    requires 0 < n && k <= n
    ensures Cut(k, total, n) <= total
  {
    MulMono(k, n, total);
    DivLe(k * total, total, n);
  }

  lemma MulMono(a: int, b: int, n: nat)
    ensures a <= b ==> a * n <= b * n
    ensures a < b ==> a * n + n <= b * n
  {
    MulGap(a, b, n);
    if a <= b { MulNat(b - a, n); }
    if a < b { MulNat(b - a - 1, n); }
  }

  lemma MulGap(a: int, b: int, n: nat)
    ensures (b - a) * n == b * n - a * n && (b - a - 1) * n == b * n - a * n - n
  {
  }

  lemma MulNat(x: nat, n: nat)
    ensures x * n >= 0
  {
  }

  lemma DivPlus(a: nat, b: nat, n: nat)
    requires n > 0
    ensures (a * n + b) / n == a + b / n
  {
    var q, r := b / n, b % n;
    assert a * n + b == (a + q) * n + r;
    DivUnique(a * n + b, a + q, r, n);
  }

  lemma DivUnique(x: nat, q: nat, r: nat, n: nat)
    requires n > 0 && x == q * n + r && r < n
    ensures x / n == q
  {
    MulMono(x / n, q, n);
    MulMono(q, x / n, n);
  }

  lemma DivStep(a: nat, r: nat, n: nat)
    requires r < n
    ensures a / n <= (a + r) / n <= a / n + 1
  {
    var q, m := a / n, a % n;
    if m + r < n {
      DivUnique(a + r, q, m + r, n);
    } else {
      assert a + r == (q + 1) * n + (m + r - n);
      DivUnique(a + r, q + 1, m + r - n, n);
    }
  }

  lemma DivLe(x: nat, total: nat, n: nat)
    requires n > 0 && x <= n * total
    ensures x / n <= total
  {
    MulMono(total, x / n, n);
  }

  lemma CutEnds(total: nat, n: nat)
    requires n > 0
    ensures Cut(0, total, n) == 0 && Cut(n, total, n) == total
  {
    DivUnique(n * total, total, 0, n);
  }

  function Lesser(a: int, b: int): int { if a <= b then a else b }

  /** The units of all runs, one run after another. */
  function ExpandAll(runs: seq<seq<Slice>>): seq<Unit> {
    if runs == [] then [] else ExpandAll(runs[..|runs| - 1]) + Expand(runs[|runs| - 1])
  }

  /** Run `k` reads the units between the cuts `k * total / n` and `(k + 1) * total / n`, one slice an input. */
  predicate IsRun(units: seq<Unit>, n: nat, k: nat, run: seq<Slice>) {
    && k < n && Cut(k, |units|, n) <= Cut(k + 1, |units|, n) <= |units|
    && Compressed(run, units[Cut(k, |units|, n)..Cut(k + 1, |units|, n)])
  }

  predicate IsSplit(units: seq<Unit>, n: nat, runs: seq<seq<Slice>>) {
    |runs| == n && forall k :: 0 <= k < n ==> IsRun(units, n, k, runs[k])
  }

  method Split(counts: seq<nat>, workers: int) returns (runs: seq<seq<Slice>>)
    ensures IsSplit(Units(counts), if workers <= 0 then 0 else Lesser(workers, |Units(counts)|), runs)
  {
    hide Compressed;
    var units := Units(counts);
    UnitsContiguous(counts, 0);
    var n := Lesser(workers, |units|);
    runs := [];
    for k := 0 to if n > 0 then n else 0
      invariant |runs| == k
      invariant forall i :: 0 <= i < k ==> IsRun(units, n, i, runs[i])
    {
      CutBounds(k, |units|, n);
      PartContiguous(units, k * |units| / n, (k + 1) * |units| / n);
      var run := Compress(units[k * |units| / n..(k + 1) * |units| / n]);
      runs := runs + [run];
    }
  }

  lemma PartContiguous(u: seq<Unit>, a: nat, b: nat)
    requires Contiguous(u) && a <= b <= |u|
    ensures Contiguous(u[a..b])
  {
  }

  /** The runs together read every unit exactly once, in order. */
  lemma {:induction false} SplitReadsEverything(units: seq<Unit>, n: nat, runs: seq<seq<Slice>>)
    requires n > 0 && IsSplit(units, n, runs)
    ensures ExpandAll(runs) == units
  {
    SplitReadsUpTo(units, n, runs, n);
    assert runs[..n] == runs;
    CutEnds(|units|, n);
    assert units[..|units|] == units;
  }

  lemma {:induction false} SplitReadsUpTo(units: seq<Unit>, n: nat, runs: seq<seq<Slice>>, k: nat)
    requires k <= n && n > 0 && IsSplit(units, n, runs)
    ensures Cut(k, |units|, n) <= |units| && ExpandAll(runs[..k]) == units[..Cut(k, |units|, n)]
  {
    hide Cut;
    CutEnds(|units|, n);
    if k > 0 {
      SplitReadsUpTo(units, n, runs, k - 1);
      var a, b := Cut(k - 1, |units|, n), Cut(k, |units|, n);
      assert IsRun(units, n, k - 1, runs[k - 1]);
      assert runs[..k][..k - 1] == runs[..k - 1];
      assert units[..a] + units[a..b] == units[..b];
    }
  }

  /** No run is empty, and no two differ in size by more than one. */
  lemma SplitIsEven(units: seq<Unit>, n: nat, runs: seq<seq<Slice>>, k: nat)
    requires 0 < n <= |units| && IsSplit(units, n, runs) && k < n
    ensures runs[k] != [] && 1 <= |units| / n <= |Expand(runs[k])| <= |units| / n + 1
  {
    AtLeastOne(|units|, n);
    CutBounds(k, |units|, n);
    assert IsRun(units, n, k, runs[k]);
  }

  lemma AtLeastOne(total: nat, n: nat)
    requires 0 < n <= total
    ensures total / n >= 1
  {
    assert total == total / n * n + total % n;
  }

  /** The cuts and the units leave no choice: two splits of the same units are the same runs. */
  lemma SplitUnique(units: seq<Unit>, n: nat, a: seq<seq<Slice>>, b: seq<seq<Slice>>)
    requires IsSplit(units, n, a) && IsSplit(units, n, b)
    ensures a == b
  {
    hide Reads, Cut;
    forall k | 0 <= k < n ensures a[k] == b[k] {
      assert IsRun(units, n, k, a[k]) && IsRun(units, n, k, b[k]);
      OnlyOneReads(a[k], b[k], units[Cut(k, |units|, n)..Cut(k + 1, |units|, n)]);
    }
  }

  // ---- How many slices ----

  /** How often the input changes from one unit to the next. */
  function Changes(u: seq<Unit>): nat {
    if |u| < 2 then 0 else Changes(u[..|u| - 1]) + (if u[|u| - 1].input != u[|u| - 2].input then 1 else 0)
  }

  lemma ChangesSnoc(u: seq<Unit>, k: nat)
    requires k < |u|
    ensures Changes(u[..k + 1]) == Changes(u[..k]) + (if k > 0 && u[k].input != u[k - 1].input then 1 else 0)
  {
    assert u[..k + 1][..k] == u[..k];
  }

  lemma {:induction false} ChangesOfParts(a: seq<Unit>, b: seq<Unit>)
    ensures Changes(a) + Changes(b) <= Changes(a + b)
    ensures Changes(a + b) <= Changes(a) + Changes(b) + 1
    decreases |b|
  {
    if b == [] { assert a + b == a; }
    else {
      var b' := b[..|b| - 1];
      ChangesOfParts(a, b');
      assert (a + b)[..|a + b| - 1] == a + b';
    }
  }

  function NonemptyInputs(counts: seq<nat>): nat {
    if counts == [] then 0 else (if counts[0] > 0 then 1 else 0) + NonemptyInputs(counts[1..])
  }

  lemma {:induction false} OneInputNoChanges(input: nat, count: nat)
    ensures Changes(InputUnits(input, 0, count)) == 0
  {
    if count > 0 {
      OneInputNoChanges(input, count - 1);
      assert InputUnits(input, 0, count)[..count - 1] == InputUnits(input, 0, count - 1);
    }
  }

  lemma {:induction false} ChangesOfUnits(counts: seq<nat>, input: nat)
    ensures UnitsFrom(counts, input) != [] ==> Changes(UnitsFrom(counts, input)) <= NonemptyInputs(counts) - 1
    ensures UnitsFrom(counts, input) == [] ==> NonemptyInputs(counts) == 0
    decreases |counts|
  {
    if counts != [] {
      ChangesOfUnits(counts[1..], input + 1);
      OneInputNoChanges(input, counts[0]);
      ChangesOfParts(InputUnits(input, 0, counts[0]), UnitsFrom(counts[1..], input + 1));
      if counts[0] == 0 { assert UnitsFrom(counts, input) == UnitsFrom(counts[1..], input + 1); }
      if UnitsFrom(counts[1..], input + 1) == [] { assert UnitsFrom(counts, input) == InputUnits(input, 0, counts[0]); }
    }
  }

  // ---- The Spark reader's flat slices ----

  function Flatten(runs: seq<seq<Slice>>): seq<Slice> {
    if runs == [] then [] else Flatten(runs[..|runs| - 1]) + runs[|runs| - 1]
  }

  const INT_MAX := 0x7fff_ffff

  /** A 32-bit product or sum: the low 32 bits, as a signed number. */
  function Wrap32(x: int): int {
    var low := x % 0x1_0000_0000;
    if low > INT_MAX then low - 0x1_0000_0000 else low
  }

  /** Java's division truncates toward zero. */
  function JavaDiv(x: int, n: int): int
    requires n > 0
  {
    if x >= 0 then x / n else -(-x / n)
  }

  lemma JavaDivTruncates(x: int, n: int)
    requires n > 0
    ensures x >= 0 ==> 0 <= x - n * JavaDiv(x, n) < n
    ensures x < 0 ==> -n < x - n * JavaDiv(x, n) <= 0
  {
  }

  function JavaCut(k: nat, total: nat, n: nat): int
    requires n > 0
  {
    JavaDiv(Wrap32(k * total), n)
  }

  datatype Sliced = Slices(slices: seq<Slice>) | OutOfRange

  function Join(run: seq<Slice>, open: bool, cur: nat, start: nat, end: nat): seq<Slice> {
    if open then run + [Slice(cur, start, end)] else run
  }

  /** One run of the Spark loop: the open slice is kept in variables and added when the file changes. */
  method OneRun(u: seq<Unit>) returns (run: seq<Slice>)
    requires Contiguous(u)
    ensures Compressed(run, u)
  {
    hide Compressed;
    run := [];
    var open, cur: nat, start: nat, end: nat := false, 0, 0, 0;
    NothingCompressed(u);
    for k := 0 to |u|
      invariant Compressed(Join(run, open, cur, start, end), u[..k]) && (open || run == [])
    {
      ExtendKeeps(Join(run, open, cur, start, end), u, k);
      ghost var before := Join(run, open, cur, start, end);
      if open && cur == u[k].input {
        end := u[k].rg + 1;
        assert before[..|run|] == run;
      } else {
        if open { run := run + [Slice(cur, start, end)]; }
        cur, start, end, open := u[k].input, u[k].rg, u[k].rg + 1, true;
      }
      assert Join(run, open, cur, start, end) == Extend(before, u[k]);
    }
    assert u[..|u|] == u;
    if open { run := run + [Slice(cur, start, end)]; }
  }

  method SplitRowGroups(counts: seq<nat>, maxWorkers: int) returns (r: Sliced, ghost runs: seq<seq<Slice>>)
    requires counts != []
    ensures Units(counts) == [] ==> r == Slices([Slice(0, 0, 0)]) && Expand(r.slices) == []
    ensures var total := |Units(counts)|; var n := Lesser(if maxWorkers > 1 then maxWorkers else 1, total);
            total > 0 && n * total <= INT_MAX ==>
              r == Slices(Flatten(runs)) && IsSplit(Units(counts), n, runs) && |Flatten(runs)| <= n + NonemptyInputs(counts) - 1
    ensures var total := |Units(counts)|; var n := Lesser(if maxWorkers > 1 then maxWorkers else 1, total);
            total > 0 && n * total > INT_MAX && r.Slices? ==> Units(counts)[total - 1] !in Expand(r.slices)
  {
    hide Flatten, IsRun, JavaCut, Units, Reads, Expand, Changes, Contiguous, NonemptyInputs;
    var units := Units(counts);
    UnitsFit(counts);
    runs := [];
    if units == [] {
      NothingToRead();
      return Slices([Slice(0, 0, 0)]), runs;
    }
    var n := Lesser(if maxWorkers > 1 then maxWorkers else 1, |units|);
    ghost var fits := n * |units| <= INT_MAX;
    var slices: seq<Slice> := [];
    FlattenNone();
    if fits { NoRunsYet(units, n); }
    ExpandNone();
    for k := 0 to n
      invariant slices == Flatten(runs) && (fits ==> Halfway(units, n, runs, k))
      invariant fits || Misses(units, slices)
    {
      var from, to := JavaCut(k, |units|, n), JavaCut(k + 1, |units|, n);
      if fits { CutsFit(k, |units|, n); }
      var run: seq<Slice> := [];
      if from < to {
        if from < 0 || to > |units| { return OutOfRange, runs; }
        PartContiguous(units, from, to);
        run := OneRun(units[from..to]);
      }
      if !fits {
        CutsFallShort(|units|, n, k + 1);
        MissesStill(units, slices, run, from, to);
      }
      if fits { OneMoreRun(units, n, runs, k, run); }
      FlattenSnoc(runs, run);
      slices, runs := slices + run, runs + [run];
    }
    if fits { AllRunsDone(units, n, runs); }
    r := Slices(slices);
  }

  /** The last unit is read by no slice. */
  predicate Misses(units: seq<Unit>, slices: seq<Slice>)
    requires units != []
  {
    units[|units| - 1] !in Expand(slices)
  }

  lemma NothingToRead()
    ensures Expand([Slice(0, 0, 0)]) == []
  {
  }

  lemma MissesStill(units: seq<Unit>, slices: seq<Slice>, run: seq<Slice>, from: int, to: int)
    requires units != [] && Contiguous(units) && Misses(units, slices)
    requires to < |units| && if from < to then 0 <= from && Reads(run, units[from..to]) else run == []
    ensures Misses(units, slices + run)
  {
    hide Expand, Contiguous;
    ExpandConcat(slices, run);
    if from < to {
      forall i | from <= i < to ensures units[i] != units[|units| - 1] { Ascending(units, i, |units| - 1); }
    } else {
      ExpandNone();
    }
  }

  lemma ExpandNone()
    ensures Expand([]) == []
  {
  }

  lemma {:induction false} ExpandConcat(a: seq<Slice>, b: seq<Slice>)
    ensures Expand(a + b) == Expand(a) + Expand(b)
    decreases |b|
  {
    hide InputUnits, Expand;
    ExpandNone();
    if b == [] {
      assert a + b == a;
    } else {
      var front, last := b[..|b| - 1], b[|b| - 1];
      ExpandConcat(a, front);
      ExpandSnoc(a + front, last);
      ExpandSnoc(front, last);
      assert front + [last] == b && (a + front) + [last] == a + b;
    }
  }

  /** Units ascend, so none comes twice. */
  lemma {:induction false} Ascending(u: seq<Unit>, i: nat, j: nat)
    requires Contiguous(u) && i < j < |u|
    ensures u[i].input < u[j].input || (u[i].input == u[j].input && u[i].rg < u[j].rg)
    decreases j
  {
    if i < j - 1 { Ascending(u, i, j - 1); }
  }

  lemma UnitsFit(counts: seq<nat>)
    ensures Contiguous(Units(counts)) && (Units(counts) != [] ==> Changes(Units(counts)) <= NonemptyInputs(counts) - 1)
  {
    UnitsContiguous(counts, 0);
    ChangesOfUnits(counts, 0);
  }

  lemma FlattenNone()
    ensures Flatten([]) == []
  {
  }

  lemma FlattenSnoc(runs: seq<seq<Slice>>, run: seq<Slice>)
    ensures Flatten(runs + [run]) == Flatten(runs) + run
  {
    assert (runs + [run])[..|runs|] == runs;
  }

  predicate Halfway(units: seq<Unit>, n: nat, runs: seq<seq<Slice>>, k: nat) {
    && |runs| == k && n > 0
    && (forall i :: 0 <= i < k ==> IsRun(units, n, i, runs[i]))
    && Cut(k, |units|, n) <= |units| && |Flatten(runs)| <= k + Changes(units[..Cut(k, |units|, n)])
  }

  lemma NoRunsYet(units: seq<Unit>, n: nat)
    requires n > 0
    ensures Halfway(units, n, [], 0)
  {
    CutEnds(|units|, n);
  }

  lemma CutsFit(k: nat, total: nat, n: nat)
    requires k < n <= total && n * total <= INT_MAX
    ensures JavaCut(k, total, n) == Cut(k, total, n) && JavaCut(k + 1, total, n) == Cut(k + 1, total, n)
    ensures Cut(k, total, n) < Cut(k + 1, total, n) <= total
  {
    NoWrap(k, total, n);
    NoWrap(k + 1, total, n);
    CutBounds(k, total, n);
    AtLeastOne(total, n);
  }

  lemma OneMoreRun(units: seq<Unit>, n: nat, runs: seq<seq<Slice>>, k: nat, run: seq<Slice>)
    requires 0 < n && k < n && Halfway(units, n, runs, k)
    requires Cut(k, |units|, n) < Cut(k + 1, |units|, n) <= |units|
    requires Compressed(run, units[Cut(k, |units|, n)..Cut(k + 1, |units|, n)])
    ensures Halfway(units, n, runs + [run], k + 1)
  {
    hide Cut, Reads, Changes, Flatten;
    ChangesUpTo(units, Cut(k, |units|, n), Cut(k + 1, |units|, n));
    FlattenSnoc(runs, run);
  }

  lemma AllRunsDone(units: seq<Unit>, n: nat, runs: seq<seq<Slice>>)
    requires Halfway(units, n, runs, n)
    ensures IsSplit(units, n, runs) && |Flatten(runs)| <= n + Changes(units)
  {
    hide IsRun, Flatten, Changes;
    CutEnds(|units|, n);
    assert units[..|units|] == units;
  }

  lemma ChangesUpTo(units: seq<Unit>, a: nat, b: nat)
    requires a <= b <= |units|
    ensures Changes(units[..a]) + Changes(units[a..b]) <= Changes(units[..b])
  {
    ChangesOfParts(units[..a], units[a..b]);
    assert units[..a] + units[a..b] == units[..b];
  }

  lemma NoWrap(k: nat, total: nat, n: nat)
    requires 0 < n && k <= n && n * total <= INT_MAX
    ensures JavaCut(k, total, n) == Cut(k, total, n)
  {
    hide Wrap32;
    MulMono(k, n, total);
    WrapSmall(k * total);
  }

  lemma WrapSmall(x: nat)
    requires x <= INT_MAX
    ensures Wrap32(x) == x
  {
  }

  /** With a product past 31 bits every cut falls short of the end. */
  lemma CutsFallShort(total: nat, n: nat, k: nat)
    requires 0 < n && k <= n && n * total > INT_MAX
    ensures JavaCut(k, total, n) < total
  {
    hide Wrap32;
    var x := Wrap32(k * total);
    WrapAtMost(k * total);
    if x >= 0 { QuotientBelow(x, n, total); }
  }

  lemma QuotientBelow(x: nat, n: nat, total: nat)
    requires n > 0 && x < n * total
    ensures x / n < total
  {
    var q := x / n;
    assert q * n <= x;
    MulMono(total, q, n);
  }

  lemma WrapAtMost(x: int)
    ensures Wrap32(x) <= INT_MAX
  {
  }
}
