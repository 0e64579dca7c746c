/** The release rule over a table of medians: who is beaten, who is behind, and whether the bar is met. */
module ShipBar {

  /** Medians are positive times. */
  type Time = t: real | t > 0.0 witness 1.0

  /** A cell of the table: its median, or nothing that counts (a failure, or reps missing). */
  datatype Cell = Median(t: Time) | NoMedian

  /** One case's row: zpq's cell and each rival's. */
  datatype Row = Row(zpq: Cell, rivals: seq<Cell>)

  /** A planned case: set aside as quarantined, or scored by its row. */
  datatype Case = Quarantined | Scored(row: Row)

  predicate Shaped(rivals: nat, planned: seq<Case>) {
    forall i :: 0 <= i < |planned| && planned[i].Scored? ==> |planned[i].row.rivals| == rivals
  }

  function B(b: bool): nat { if b then 1 else 0 }

  // ---- One case ----

  predicate ZpqFailed(c: Case) { c.Scored? && c.row.zpq.NoMedian? }

  predicate InRace(c: Case) { c.Scored? && c.row.zpq.Median? }

  /** zpq beats a rival that it is faster than, and one that has no median. */
  predicate Beats(c: Case, r: nat) {
    InRace(c) && r < |c.row.rivals| && (c.row.rivals[r].NoMedian? || c.row.zpq.t < c.row.rivals[r].t)
  }

  /** The ratio of zpq's time to a rival's is above 1, or above 1.5. */
  predicate Above(z: Time, t: Time, half: bool) {
    if half then 2.0 * z > 3.0 * t else z > t
  }

  predicate SlowerThan(c: Case, half: bool) {
    InRace(c) && exists r :: 0 <= r < |c.row.rivals| && c.row.rivals[r].Median? && Above(c.row.zpq.t, c.row.rivals[r].t, half)
  }

  predicate IsBehind(c: Case) { ZpqFailed(c) || SlowerThan(c, false) }

  predicate IsOver(c: Case) { ZpqFailed(c) || SlowerThan(c, true) }

  // ---- All cases ----

  function Count(cases: seq<Case>, p: Case -> bool): nat {
    if cases == [] then 0 else Count(cases[..|cases| - 1], p) + B(p(cases[|cases| - 1]))
  }

  function BeatsCount(cases: seq<Case>, r: nat): nat {
    Count(cases, c => Beats(c, r))
  }

  predicate Met(rivals: nat, planned: seq<Case>) {
    && (forall r :: 0 <= r < rivals ==> 2 * BeatsCount(planned, r) > |planned|)
    && 5 * Count(planned, IsBehind) <= |planned|
    && Count(planned, IsOver) == 0
  }

  datatype Bar = Bar(beats: seq<nat>, behind: nat, over: nat, failed: nat, ratios: nat, met: bool)

  function Best(rivals: seq<Cell>): (b: Cell)
    ensures b.Median? <==> exists r :: 0 <= r < |rivals| && rivals[r].Median?
    ensures b.Median? ==> forall r :: 0 <= r < |rivals| && rivals[r].Median? ==> b.t <= rivals[r].t
    ensures b.Median? ==> b in rivals
  {
    if rivals == [] then NoMedian
    else
      var rest := Best(rivals[1..]);
      assert rivals == [rivals[0]] + rivals[1..];
      if rivals[0].NoMedian? || (rest.Median? && rest.t < rivals[0].t) then rest else rivals[0]
  }

  /** Comparing with the best rival is comparing with all of them. */
  lemma RatioToBest(c: Case, half: bool)
    requires InRace(c)
    ensures SlowerThan(c, half) <==> Best(c.row.rivals).Median? && Above(c.row.zpq.t, Best(c.row.rivals).t, half)
  {
    var best := Best(c.row.rivals);
    if best.Median? {
      var r :| 0 <= r < |c.row.rivals| && c.row.rivals[r] == best;
    }
  }

  // ---- The tally ----

  /** The counters after some of the cases. */
  predicate Tallied(rivals: nat, done: seq<Case>, bar: Bar) {
    && |bar.beats| == rivals && (forall r :: 0 <= r < rivals ==> bar.beats[r] == BeatsCount(done, r))
    && bar.behind == Count(done, IsBehind) && bar.over == Count(done, IsOver) && bar.failed == Count(done, ZpqFailed)
    && bar.ratios == Count(done, c => InRace(c) && Best(c.row.rivals).Median?)
  }

  method Tally(rivals: nat, planned: seq<Case>) returns (bar: Bar)
    requires Shaped(rivals, planned)
    ensures Tallied(rivals, planned, bar) && (bar.met <==> Met(rivals, planned))
  {
    hide Beats, IsBehind, IsOver, Best;
    bar := Bar(seq(rivals, _ => 0), 0, 0, 0, 0, false);
    for i := 0 to |planned|
      invariant Tallied(rivals, planned[..i], bar)
    {
      assert planned[..i + 1] == planned[..i] + [planned[i]];
      bar := TallyOne(rivals, planned[..i], bar, planned[i]);
    }
    assert planned[..|planned|] == planned;
    var majority := forall r :: 0 <= r < rivals ==> 2 * bar.beats[r] > |planned|;
    bar := bar.(met := majority && 5 * bar.behind <= |planned| && bar.over == 0);
  }

  method TallyOne(rivals: nat, ghost done: seq<Case>, bar: Bar, c: Case) returns (r: Bar)
    requires Tallied(rivals, done, bar) && (c.Scored? ==> |c.row.rivals| == rivals)
    ensures Tallied(rivals, done + [c], r)
  {
    hide Above, Best;
    assert (done + [c])[..|done|] == done;
    if c.Quarantined? { return bar; }
    if c.row.zpq.NoMedian? { return bar.(behind := bar.behind + 1, over := bar.over + 1, failed := bar.failed + 1); }
    var best := Best(c.row.rivals);
    RatioToBest(c, false);
    RatioToBest(c, true);
    var beats := seq(rivals, k requires 0 <= k < rivals => bar.beats[k] + B(c.row.rivals[k].NoMedian? || c.row.zpq.t < c.row.rivals[k].t));
    if best.NoMedian? { return bar.(beats := beats); }
    r := bar.(beats := beats, ratios := bar.ratios + 1, behind := bar.behind + B(Above(c.row.zpq.t, best.t, false)),
      over := bar.over + B(Above(c.row.zpq.t, best.t, true)));
  }

  // ---- Conservation ----

  lemma {:induction false} CountOfParts(cases: seq<Case>)
    ensures Count(cases, (c: Case) => c.Quarantined?) + Count(cases, ZpqFailed) + Count(cases, InRace) == |cases|
  {
    if cases != [] { CountOfParts(cases[..|cases| - 1]); }
  }

  // ---- Where the thresholds lie ----

  /** Faster than every rival that has a median. */
  predicate Won(c: Case) {
    c.Scored? && c.row.zpq.Median? && forall r :: 0 <= r < |c.row.rivals| && c.row.rivals[r].Median? ==> c.row.zpq.t < c.row.rivals[r].t
  }

  /** Slower than every rival, and than none by more than half of its time. */
  predicate CloselyLost(c: Case) {
    c.Scored? && c.row.zpq.Median? && forall r :: 0 <= r < |c.row.rivals| ==>
      c.row.rivals[r].Median? && c.row.rivals[r].t < c.row.zpq.t <= c.row.rivals[r].t + c.row.rivals[r].t / 2.0
  }

  /** As fast as every rival. */
  predicate Tied(c: Case) {
    c.Scored? && c.row.zpq.Median? && forall r :: 0 <= r < |c.row.rivals| ==> c.row.rivals[r] == c.row.zpq
  }

  /** Failed, or slower than some rival by more than half of its time. */
  predicate BadlyLost(c: Case) {
    c.Scored? && (|| c.row.zpq.NoMedian?
                  || exists r :: 0 <= r < |c.row.rivals| && c.row.rivals[r].Median? && c.row.zpq.t > c.row.rivals[r].t + c.row.rivals[r].t / 2.0)
  }

  /** Where `p` holds. */
  function Where(cases: seq<Case>, p: Case -> bool): set<nat> {
    set i: nat | i < |cases| && p(cases[i])
  }

  lemma {:induction false} CountIsSize(cases: seq<Case>, p: Case -> bool)
    ensures Count(cases, p) == |Where(cases, p)|
  {
    if cases != [] {
      var n := |cases| - 1;
      CountIsSize(cases[..n], p);
      assert Where(cases, p) == Where(cases[..n], p) + if p(cases[n]) then {n as nat} else {};
    }
  }

  lemma {:induction false} CountSame(cases: seq<Case>, p: Case -> bool, q: Case -> bool)
    requires forall i :: 0 <= i < |cases| ==> (p(cases[i]) <==> q(cases[i]))
    ensures Count(cases, p) == Count(cases, q)
  {
    if cases != [] { CountSame(cases[..|cases| - 1], p, q); }
  }

  /** One case badly lost misses the bar. */
  lemma BadlyLostMisses(rivals: nat, planned: seq<Case>, i: nat)
    requires i < |planned| && BadlyLost(planned[i])
    ensures !Met(rivals, planned)
  {
    CountIsSize(planned, IsOver);
    assert SlowerThan(planned[i], true) || ZpqFailed(planned[i]);
    assert i in Where(planned, IsOver);
  }

  /** When every case is won, closely lost, tied or set aside, the bar is met exactly when more than half of all cases are won
      and at most a fifth of all are lost. */
  lemma BarOfWins(rivals: nat, planned: seq<Case>)
    requires rivals > 0 && Shaped(rivals, planned)
    requires forall i :: 0 <= i < |planned| ==> Won(planned[i]) || CloselyLost(planned[i]) || Tied(planned[i]) || planned[i].Quarantined?
    ensures Met(rivals, planned) <==>
            2 * |Where(planned, Won)| > |planned| && 5 * |Where(planned, CloselyLost)| <= |planned|
  {
    hide Count, Where;
    forall r | 0 <= r < rivals ensures BeatsCount(planned, r) == |Where(planned, Won)| {
      forall i | 0 <= i < |planned| ensures Beats(planned[i], r) <==> Won(planned[i]) {}
      CountSame(planned, c => Beats(c, r), Won);
      CountIsSize(planned, Won);
    }
    forall i | 0 <= i < |planned| ensures (IsBehind(planned[i]) <==> CloselyLost(planned[i])) && !IsOver(planned[i]) {
      if CloselyLost(planned[i]) { assert Above(planned[i].row.zpq.t, planned[i].row.rivals[0].t, false); }
    }
    CountSame(planned, IsBehind, CloselyLost);
    CountIsSize(planned, CloselyLost);
    CountNone(planned, IsOver);
    assert BeatsCount(planned, 0) == |Where(planned, Won)|;
  }

  lemma {:induction false} CountNone(cases: seq<Case>, p: Case -> bool)
    requires forall i :: 0 <= i < |cases| ==> !p(cases[i])
    ensures Count(cases, p) == 0
  {
    if cases != [] { CountNone(cases[..|cases| - 1], p); }
  }

  // ---- Monotonicity ----

  lemma {:induction false} CountMonotone(a: seq<Case>, b: seq<Case>, p: Case -> bool)
    requires |a| == |b| && forall i :: 0 <= i < |a| ==> p(a[i]) ==> p(b[i])
    ensures Count(a, p) <= Count(b, p)
  {
    if a != [] { CountMonotone(a[..|a| - 1], b[..|b| - 1], p); }
  }

  /** zpq's cell is no better: slower, failed, or the same. */
  predicate ZpqWorse(c: Case, d: Case) {
    || c == d
    || (c.Scored? && d.Scored? && c.row.rivals == d.row.rivals
        && (d.row.zpq.NoMedian? || (c.row.zpq.Median? && c.row.zpq.t <= d.row.zpq.t)))
  }

  /** Rivals' cells are the same or failed. */
  predicate RivalsWorse(c: Case, d: Case) {
    || c == d
    || (c.Scored? && d.Scored? && c.row.zpq == d.row.zpq && |c.row.rivals| == |d.row.rivals|
        && forall r :: 0 <= r < |c.row.rivals| ==> d.row.rivals[r] == c.row.rivals[r] || d.row.rivals[r].NoMedian?)
  }

  lemma CaseOrder(rivals: nat, c: Case, d: Case)
    requires ZpqWorse(c, d) || RivalsWorse(d, c)
    ensures forall r :: 0 <= r < rivals && Beats(d, r) ==> Beats(c, r)
    ensures IsBehind(c) ==> IsBehind(d)
    ensures IsOver(c) ==> IsOver(d)
  {
    if SlowerThan(c, false) && d != c && d.Scored? && d.row.zpq.Median? {
      var r :| 0 <= r < |c.row.rivals| && c.row.rivals[r].Median? && Above(c.row.zpq.t, c.row.rivals[r].t, false);
      assert Above(d.row.zpq.t, d.row.rivals[r].t, false);
    }
    if SlowerThan(c, true) && d != c && d.Scored? && d.row.zpq.Median? {
      var r :| 0 <= r < |c.row.rivals| && c.row.rivals[r].Median? && Above(c.row.zpq.t, c.row.rivals[r].t, true);
      assert Above(d.row.zpq.t, d.row.rivals[r].t, true);
    }
  }

  /** When every case is at least as good for zpq in `a` as in `b`, a met bar of `b` is a met bar of `a`. */
  lemma MetMonotone(rivals: nat, a: seq<Case>, b: seq<Case>)
    requires |a| == |b| && forall i :: 0 <= i < |a| ==> ZpqWorse(a[i], b[i]) || RivalsWorse(b[i], a[i])
    requires Met(rivals, b)
    ensures Met(rivals, a)
  {
    hide Beats, IsBehind, IsOver, ZpqWorse, RivalsWorse;
    forall i | 0 <= i < |a|
      ensures forall r :: 0 <= r < rivals && Beats(b[i], r) ==> Beats(a[i], r)
      ensures (IsBehind(a[i]) ==> IsBehind(b[i])) && (IsOver(a[i]) ==> IsOver(b[i]))
    {
      CaseOrder(rivals, a[i], b[i]);
    }
    forall r | 0 <= r < rivals ensures BeatsCount(b, r) <= BeatsCount(a, r) {
      CountMonotone(b, a, c => Beats(c, r));
    }
    CountMonotone(a, b, IsBehind);
    CountMonotone(a, b, IsOver);
  }

  /** Slower or failed zpq cells never turn a missed bar into a met one. */
  lemma WorseZpqNeverMeets(rivals: nat, before: seq<Case>, after: seq<Case>)
    requires |before| == |after| && forall i :: 0 <= i < |before| ==> ZpqWorse(before[i], after[i])
    requires !Met(rivals, before)
    ensures !Met(rivals, after)
  {
    hide Met, ZpqWorse;
    if Met(rivals, after) { MetMonotone(rivals, before, after); }
  }

  /** Failed rival cells never turn a met bar into a missed one. */
  lemma FailedRivalsNeverMiss(rivals: nat, before: seq<Case>, after: seq<Case>)
    requires |before| == |after| && forall i :: 0 <= i < |before| ==> RivalsWorse(before[i], after[i])
    requires Met(rivals, before)
    ensures Met(rivals, after)
  {
    hide Met, RivalsWorse;
    MetMonotone(rivals, after, before);
  }
}
