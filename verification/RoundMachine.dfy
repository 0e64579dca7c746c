/** The bench's rounds: which reps a host disturbed, which cases run again, and what is left when a lane ends. */
module RoundMachine {
  import opened Options
  import Aggregates
  import StableSort

  datatype Status = Ok | Disturbed | Failed | Wrong | Timeout

  /** Stall counters of the engine's scope, in nanoseconds. */
  datatype Scope = Scope(ioSome: int, memorySome: int)

  /** What one attempt gives; without PSI the counters are absent. */
  datatype Attempt = Attempt(status: Status, elapsed: Option<int>, readBytes: int, hostIoFull: Option<int>, scope: Option<Scope>)

  datatype Key = Key(case_: string, engine: string, rep: nat, round: nat)

  datatype Record = Record(key: Key, got: Attempt)

  // ---- What disturbed means ----

  const SECOND := 1_000_000_000

  function Max(a: int, b: int): int { if a >= b then a else b }

  /** The host, not the engine, made `r` slow. */
  predicate Stalled(r: Attempt, fastest: Attempt)
    requires r.elapsed.Some? && fastest.elapsed.Some?
  {
    var excess := r.elapsed.value - fastest.elapsed.value;
    || (r.hostIoFull.Some? && r.hostIoFull.value > SECOND)
    || (excess > Max(SECOND, 2 * fastest.elapsed.value)
        && (r.scope.None? || fastest.scope.None?
            || (2 * Max(r.scope.value.ioSome - fastest.scope.value.ioSome, r.scope.value.memorySome - fastest.scope.value.memorySome)
                >= excess
                && 10 * r.readBytes <= 11 * Max(1, fastest.readBytes))))
  }

  predicate IsTimed(a: Attempt) { a.status == Ok && a.elapsed.Some? }

  /** The first of the fastest timed attempts. */
  function Fastest(cell: seq<Attempt>): (f: Option<Attempt>)
    ensures f.Some? ==> IsTimed(f.value)
  {
    if cell == [] then None
    else
      var best, last := Fastest(cell[..|cell| - 1]), cell[|cell| - 1];
      if IsTimed(last) && (best.None? || last.elapsed.value < best.value.elapsed.value) then Some(last) else best
  }

  predicate NoneTimed(cell: seq<Attempt>) { forall i :: 0 <= i < |cell| && cell[i].status == Ok ==> cell[i].elapsed == None }

  /** Attempt `k` is timed, none is faster, and an earlier one is slower. */
  predicate FirstLeast(cell: seq<Attempt>, k: nat) {
    k < |cell| && cell[k].status == Ok && cell[k].elapsed.Some? && forall i :: 0 <= i < |cell| && cell[i].status == Ok && cell[i].elapsed.Some? ==>
      cell[k].elapsed.value <= cell[i].elapsed.value && (i < k ==> cell[k].elapsed.value < cell[i].elapsed.value)
  }

  lemma {:induction false} FastestIsLeast(cell: seq<Attempt>)
    ensures Fastest(cell).None? <==> NoneTimed(cell)
    ensures Fastest(cell).Some? ==> exists k: nat :: FirstLeast(cell, k) && Fastest(cell).value == cell[k]
  {
    if cell != [] {
      hide IsTimed, FirstLeast, NoneTimed;
      var front, last := cell[..|cell| - 1], cell[|cell| - 1];
      FastestIsLeast(front);
      assert cell == front + [last];
      if Fastest(front).Some? {
        var k: nat :| FirstLeast(front, k) && Fastest(front).value == front[k];
        LeastSnoc(front, k, last);
        assert cell[|front|] == last && cell[k] == front[k];
      } else {
        NoneSnoc(front, last);
        assert cell[|front|] == last;
      }
    }
  }

  lemma LeastSnoc(front: seq<Attempt>, k: nat, last: Attempt)
    requires FirstLeast(front, k)
    ensures k < |front| && front[k].elapsed.Some? && !NoneTimed(front) && !NoneTimed(front + [last])
    ensures if IsTimed(last) && last.elapsed.value < front[k].elapsed.value then FirstLeast(front + [last], |front|)
            else FirstLeast(front + [last], k)
  {
    var cell := front + [last];
    assert cell[k] == front[k] && cell[|front|] == last;
  }

  lemma NoneSnoc(front: seq<Attempt>, last: Attempt)
    requires NoneTimed(front)
    ensures if IsTimed(last) then FirstLeast(front + [last], |front|) && !NoneTimed(front + [last]) else NoneTimed(front + [last])
  {
    assert (front + [last])[|front|] == last;
  }

  /** An attempt within a second of the fastest, or within three times its time, is stalled only by the host's own counter.
      One outside both is stalled when a counter is missing; else only when at least half of what it lost was spent stalled
      more than in the fastest, and it read at most a tenth more. */
  lemma StalledWhen(r: Attempt, fastest: Attempt)
    requires r.elapsed.Some? && fastest.elapsed.Some?
    ensures var t, least := r.elapsed.value, fastest.elapsed.value;
      && (r.hostIoFull.Some? && r.hostIoFull.value >= 1_000_000_001 ==> Stalled(r, fastest))
      && (r.hostIoFull.None? || r.hostIoFull.value <= 1_000_000_000 ==>
        && (t <= least + 1_000_000_000 || t <= 3 * least ==> !Stalled(r, fastest))
        && (t > least + 1_000_000_000 && t > 3 * least ==>
          && (r.scope.None? || fastest.scope.None? ==> Stalled(r, fastest))
          && (r.scope.Some? && fastest.scope.Some? ==>
              (Stalled(r, fastest) <==>
               && (|| 2 * (r.scope.value.ioSome - fastest.scope.value.ioSome) >= t - least
                   || 2 * (r.scope.value.memorySome - fastest.scope.value.memorySome) >= t - least)
               && (if fastest.readBytes < 1 then r.readBytes <= 1 else 10 * r.readBytes <= 11 * fastest.readBytes)))))
  {
  }

  predicate DisturbedCell(cell: seq<Attempt>) {
    exists i :: 0 <= i < |cell| &&
      (cell[i].status == Disturbed || (IsTimed(cell[i]) && Fastest(cell).Some? && Stalled(cell[i], Fastest(cell).value)))
  }

  /** The timed reps of a case and engine in a round; rep 0 is a warm-up. */
  function Cell(journal: seq<Record>, case_: string, engine: string, round: nat): seq<Attempt> {
    if journal == [] then []
    else
      var front, last := journal[..|journal| - 1], journal[|journal| - 1];
      Cell(front, case_, engine, round)
      + if last.key.case_ == case_ && last.key.engine == engine && last.key.round == round && last.key.rep >= 1 then [last.got] else []
  }

  predicate DisturbedIn(journal: seq<Record>, engines: seq<string>, case_: string, round: nat) {
    exists e :: e in engines && DisturbedCell(Cell(journal, case_, e, round))
  }

  // ---- A lane's journal ----

  /** What the lane runs: cold reps are all timed, hot ones have a warm-up. */
  datatype Plan = Plan(cases: seq<string>, engines: seq<string>, reps: nat, hot: bool)

  const ROUNDS := 3

  function FirstRep(p: Plan): nat { if p.hot then 0 else 1 }

  predicate HasKey(journal: seq<Record>, k: Key) {
    exists i :: 0 <= i < |journal| && journal[i].key == k
  }

  /** Round 0 runs every case, and a later round those that the round before disturbed. */
  predicate Wanted(p: Plan, journal: seq<Record>, case_: string, round: nat) {
    case_ in p.cases && (round > 0 ==> DisturbedIn(journal, p.engines, case_, round - 1))
  }

  predicate InPlan(p: Plan, k: Key) {
    k.case_ in p.cases && k.engine in p.engines && FirstRep(p) <= k.rep <= p.reps && k.round < ROUNDS
  }

  /** Every rep of every engine of every wanted case is in the journal. */
  predicate Complete(p: Plan, journal: seq<Record>, round: nat) {
    forall c, e, rep :: c in p.cases && e in p.engines && FirstRep(p) <= rep <= p.reps && Wanted(p, journal, c, round) ==>
      HasKey(journal, Key(c, e, rep, round))
  }

  /** A record of a round stands only after the round before was complete, and only for a case that it disturbed. */
  predicate Justified(p: Plan, journal: seq<Record>, k: Key) {
    k.round > 0 ==> Complete(p, journal, k.round - 1) && Wanted(p, journal, k.case_, k.round)
  }

  /** A journal that a run of the lane, cut short anywhere, can leave. */
  predicate Valid(p: Plan, journal: seq<Record>) {
    && (forall i :: 0 <= i < |journal| ==> InPlan(p, journal[i].key) && Justified(p, journal, journal[i].key))
    && (forall i, j :: 0 <= i < j < |journal| ==> journal[i].key != journal[j].key)
  }

  // ---- Adding one record ----

  lemma CellSnoc(journal: seq<Record>, r: Record, case_: string, engine: string, round: nat)
    ensures Cell(journal + [r], case_, engine, round)
         == Cell(journal, case_, engine, round)
          + if r.key.case_ == case_ && r.key.engine == engine && r.key.round == round && r.key.rep >= 1 then [r.got] else []
  {
    assert (journal + [r])[..|journal|] == journal;
  }

  /** A record changes nothing about the other rounds. */
  lemma OtherRounds(p: Plan, journal: seq<Record>, r: Record, case_: string, round: nat)
    requires round != r.key.round
    ensures DisturbedIn(journal + [r], p.engines, case_, round) == DisturbedIn(journal, p.engines, case_, round)
  {
    hide Cell, DisturbedCell;
    forall e ensures Cell(journal + [r], case_, e, round) == Cell(journal, case_, e, round) {
      CellSnoc(journal, r, case_, e, round);
      assert Cell(journal, case_, e, round) + [] == Cell(journal, case_, e, round);
    }
  }

  lemma WantedStays(p: Plan, journal: seq<Record>, r: Record, case_: string, round: nat)
    requires round <= r.key.round
    ensures Wanted(p, journal + [r], case_, round) == Wanted(p, journal, case_, round)
  {
    if round > 0 { OtherRounds(p, journal, r, case_, round - 1); }
  }

  lemma HasKeyGrows(journal: seq<Record>, r: Record, k: Key)
    ensures HasKey(journal + [r], k) <==> HasKey(journal, k) || r.key == k
  {
    if HasKey(journal, k) {
      var i :| 0 <= i < |journal| && journal[i].key == k;
      assert (journal + [r])[i].key == k;
    }
    if r.key == k { assert (journal + [r])[|journal|].key == k; }
  }

  lemma CompleteStays(p: Plan, journal: seq<Record>, r: Record, round: nat)
    requires round <= r.key.round && Complete(p, journal, round)
    ensures Complete(p, journal + [r], round)
  {
    hide Wanted, HasKey;
    forall c, e, rep | c in p.cases && e in p.engines && FirstRep(p) <= rep <= p.reps && Wanted(p, journal + [r], c, round)
      ensures HasKey(journal + [r], Key(c, e, rep, round))
    {
      WantedStays(p, journal, r, c, round);
      HasKeyGrows(journal, r, Key(c, e, rep, round));
    }
  }

  lemma EmptyCell(journal: seq<Record>, case_: string, engine: string, round: nat)
    requires forall i :: 0 <= i < |journal| ==> journal[i].key.round != round
    ensures Cell(journal, case_, engine, round) == []
  {
    if journal != [] { EmptyCell(journal[..|journal| - 1], case_, engine, round); }
  }

  /** While a wanted rep of a round is missing, no later round has begun. */
  lemma {:induction false} NothingLater(p: Plan, journal: seq<Record>, k: Key, later: nat)
    requires Valid(p, journal) && InPlan(p, k) && Wanted(p, journal, k.case_, k.round) && !HasKey(journal, k) && later > k.round
    ensures forall i :: 0 <= i < |journal| ==> journal[i].key.round != later
    decreases later
  {
    hide Cell, DisturbedCell;
    forall i | 0 <= i < |journal| ensures journal[i].key.round != later {
      if journal[i].key.round == later {
        assert Justified(p, journal, journal[i].key);
        assert k == Key(k.case_, k.engine, k.rep, k.round);
        if later > k.round + 1 {
          NothingLater(p, journal, k, later - 1);
          var c := journal[i].key.case_;
          var e :| e in p.engines && DisturbedCell(Cell(journal, c, e, later - 1));
          EmptyCell(journal, c, e, later - 1);
          NotDisturbed();
        }
      }
    }
  }

  lemma NotDisturbed()
    ensures !DisturbedCell([])
  {
  }

  /** Recording a wanted rep that is missing, its earlier rounds complete, keeps the journal valid. */
  lemma RecordKeepsValid(p: Plan, journal: seq<Record>, r: Record)
    requires Valid(p, journal) && InPlan(p, r.key) && Wanted(p, journal, r.key.case_, r.key.round) && !HasKey(journal, r.key)
    requires r.key.round > 0 ==> Complete(p, journal, r.key.round - 1)
    ensures Valid(p, journal + [r])
  {
    hide Wanted, Complete, InPlan;
    var after := journal + [r];
    forall i | 0 <= i < |after| ensures InPlan(p, after[i].key) && Justified(p, after, after[i].key) {
      var k := after[i].key;
      if i < |journal| {
        assert k == journal[i].key && Justified(p, journal, k);
        if k.round > r.key.round { NothingLater(p, journal, r.key, k.round); }
      }
      if k.round > 0 {
        CompleteStays(p, journal, r, k.round - 1);
        WantedStays(p, journal, r, k.case_, k.round);
      }
    }
    forall i | 0 <= i < |journal| ensures journal[i].key != r.key {}
  }

  // ---- The lane ----

  /** Names in order, as Python sorts them. */
  function ByName(): (string, string) -> bool {
    (a, b) => !Aggregates.TextLess(b, a)
  }

  function DisturbedCases(p: Plan, journal: seq<Record>, round: nat, cases: seq<string>): seq<string> {
    if cases == [] then []
    else (if DisturbedIn(journal, p.engines, cases[0], round) then [cases[0]] else []) + DisturbedCases(p, journal, round, cases[1..])
  }

  lemma {:induction false} DisturbedCasesAre(p: Plan, journal: seq<Record>, round: nat, cases: seq<string>, c: string)
    ensures c in DisturbedCases(p, journal, round, cases) <==> c in cases && DisturbedIn(journal, p.engines, c, round)
  {
    hide DisturbedIn;
    if cases != [] { DisturbedCasesAre(p, journal, round, cases[1..], c); }
  }

  /** The journal of one lane; `attempt` stands for the host and the engines. */
  class Lane {
    const plan: Plan
    var journal: seq<Record>

    /** A lane starts with an empty journal or with what an earlier run left. */
    constructor (plan: Plan, journal: seq<Record>)
      requires Valid(plan, journal)
      ensures this.plan == plan && this.journal == journal
    {
      this.plan, this.journal := plan, journal;
    }

    /** One rep, unless the journal has it. */
    method Fresh(k: Key, attempt: Key -> Attempt)
      requires Valid(plan, journal) && InPlan(plan, k) && Wanted(plan, journal, k.case_, k.round)
      requires k.round > 0 ==> Complete(plan, journal, k.round - 1)
      modifies this
      ensures Valid(plan, journal) && HasKey(journal, k) && old(journal) <= journal
      ensures forall i :: |old(journal)| <= i < |journal| ==> journal[i].key == k
      ensures k.round > 0 ==> Complete(plan, journal, k.round - 1)
      ensures forall c :: Wanted(plan, journal, c, k.round) == Wanted(plan, old(journal), c, k.round)
    {
      hide Valid, InPlan, Wanted, Complete, HasKey;
      if !HasKey(journal, k) {
        var r := Record(k, attempt(k));
        RecordKeepsValid(plan, journal, r);
        HasKeyGrows(journal, r, k);
        if k.round > 0 { CompleteStays(plan, journal, r, k.round - 1); }
        forall c ensures Wanted(plan, journal + [r], c, k.round) == Wanted(plan, journal, c, k.round) {
          WantedStays(plan, journal, r, c, k.round);
        }
        journal := journal + [r];
      }
    }

    /** The cases of this round are those it wants, and the round before is complete. */
    ghost predicate InRound(ids: seq<string>, round: nat)
      reads this
    {
      && Valid(plan, journal) && round < ROUNDS
      && (round > 0 ==> Complete(plan, journal, round - 1))
      && forall c :: c in ids <==> Wanted(plan, journal, c, round)
    }

    /** One rep of every case and engine. */
    method RunRep(ids: seq<string>, round: nat, rep: nat, attempt: Key -> Attempt)
      requires InRound(ids, round) && FirstRep(plan) <= rep <= plan.reps
      modifies this
      ensures InRound(ids, round) && old(journal) <= journal
      ensures forall i :: |old(journal)| <= i < |journal| ==> journal[i].key.round == round
      ensures forall c, e :: c in ids && e in plan.engines ==> HasKey(journal, Key(c, e, rep, round))
    {
      hide Valid, Wanted, Complete, HasKey;
      for c := 0 to |ids|
        invariant InRound(ids, round) && old(journal) <= journal
        invariant forall i :: |old(journal)| <= i < |journal| ==> journal[i].key.round == round
        invariant forall d, e :: 0 <= d < c && e in plan.engines ==> HasKey(journal, Key(ids[d], e, rep, round))
      {
        ghost var before := journal;
        RunCase(ids, c, round, rep, attempt);
        forall d, e | 0 <= d < c && e in plan.engines ensures HasKey(journal, Key(ids[d], e, rep, round)) {
          HasKeyStays(before, journal, Key(ids[d], e, rep, round));
        }
      }
    }

    method RunCase(ids: seq<string>, c: nat, round: nat, rep: nat, attempt: Key -> Attempt)
      requires InRound(ids, round) && FirstRep(plan) <= rep <= plan.reps && c < |ids|
      modifies this
      ensures InRound(ids, round) && old(journal) <= journal
      ensures forall i :: |old(journal)| <= i < |journal| ==> journal[i].key.round == round
      ensures forall e :: e in plan.engines ==> HasKey(journal, Key(ids[c], e, rep, round))
    {
      hide Valid, Complete, HasKey, DisturbedIn;
      for e := 0 to |plan.engines|
        invariant InRound(ids, round) && old(journal) <= journal
        invariant forall i :: |old(journal)| <= i < |journal| ==> journal[i].key.round == round
        invariant forall d :: 0 <= d < e ==> HasKey(journal, Key(ids[c], plan.engines[d], rep, round))
      {
        ghost var before := journal;
        assert ids[c] in ids && plan.engines[e] in plan.engines;
        Fresh(Key(ids[c], plan.engines[e], rep, round), attempt);
        forall d | 0 <= d < e ensures HasKey(journal, Key(ids[c], plan.engines[d], rep, round)) {
          HasKeyStays(before, journal, Key(ids[c], plan.engines[d], rep, round));
        }
      }
    }

    method RunRound(ids: seq<string>, round: nat, attempt: Key -> Attempt)
      requires InRound(ids, round)
      modifies this
      ensures InRound(ids, round) && Complete(plan, journal, round) && old(journal) <= journal
      ensures forall i :: |old(journal)| <= i < |journal| ==> journal[i].key.round == round
    {
      hide Valid, Wanted, HasKey;
      var first := FirstRep(plan);
      for rep := first to if plan.reps + 1 > first then plan.reps + 1 else first
        invariant InRound(ids, round) && old(journal) <= journal
        invariant forall i :: |old(journal)| <= i < |journal| ==> journal[i].key.round == round
        invariant forall c, e, k :: c in ids && e in plan.engines && first <= k < rep ==> HasKey(journal, Key(c, e, k, round))
      {
        ghost var before := journal;
        RunRep(ids, round, rep, attempt);
        forall c, e, k | c in ids && e in plan.engines && first <= k < rep ensures HasKey(journal, Key(c, e, k, round)) {
          HasKeyStays(before, journal, Key(c, e, k, round));
        }
      }
    }

    method NextIds(round: nat) returns (ids: seq<string>)
      ensures forall c :: c in ids <==> Wanted(plan, journal, c, round + 1)
      ensures ids == [] ==> forall c :: c in plan.cases ==> !DisturbedIn(journal, plan.engines, c, round)
    {
      hide DisturbedIn, DisturbedCases;
      ids := StableSort.Sort(DisturbedCases(plan, journal, round, plan.cases), ByName());
      forall c ensures c in ids <==> c in plan.cases && DisturbedIn(journal, plan.engines, c, round) {
        DisturbedCasesAre(plan, journal, round, plan.cases, c);
      }
    }

    /** Rounds until none is disturbed, at most three; `last` is the last one run. */
    method Run(attempt: Key -> Attempt) returns (ghost last: nat)
      requires Valid(plan, journal)
      modifies this
      ensures Valid(plan, journal) && old(journal) <= journal && Settled(plan, journal, last)
    {
      hide Valid, Complete, HasKey, DisturbedIn;
      var ids := plan.cases;
      last := 0;
      var round := 0;
      while true
        invariant round < ROUNDS && InRound(ids, round) && old(journal) <= journal
        invariant forall r :: 0 <= r < round ==> Complete(plan, journal, r)
        decreases ROUNDS - round
      {
        ghost var before := journal;
        RunRound(ids, round, attempt);
        forall r | 0 <= r < round ensures Complete(plan, journal, r) { CompleteKept(plan, before, journal, r, round); }
        last := round;
        ids := NextIds(round);
        if ids == [] || round + 1 == ROUNDS { break; }
        round := round + 1;
      }
      NoneAfter(plan, journal, last);
    }
  }

  lemma HasKeyStays(before: seq<Record>, after: seq<Record>, k: Key)
    requires before <= after && HasKey(before, k)
    ensures HasKey(after, k)
  {
    var i :| 0 <= i < |before| && before[i].key == k;
    assert after[i].key == k;
  }

  lemma {:induction false} CompleteKept(p: Plan, before: seq<Record>, after: seq<Record>, r: nat, round: nat)
    requires before <= after && r < round && Complete(p, before, r)
    requires forall i :: |before| <= i < |after| ==> after[i].key.round == round
    ensures Complete(p, after, r)
    decreases |after|
  {
    hide Complete;
    if before == after {
    } else {
      var front := after[..|after| - 1];
      CompleteKept(p, before, front, r, round);
      CompleteStays(p, front, after[|after| - 1], r);
      assert front + [after[|after| - 1]] == after;
    }
  }

  /** The lane is done: every round up to `last` is complete, nothing ran later, and `last` disturbed nothing or was the third. */
  predicate Settled(p: Plan, journal: seq<Record>, last: nat) {
    && last < ROUNDS
    && (forall r :: 0 <= r <= last ==> Complete(p, journal, r))
    && (forall i :: 0 <= i < |journal| ==> journal[i].key.round <= last)
    && (last + 1 < ROUNDS ==> forall c :: c in p.cases ==> !DisturbedIn(journal, p.engines, c, last))
  }

  lemma NoneAfter(p: Plan, journal: seq<Record>, last: nat)
    requires Valid(p, journal) && last < ROUNDS
    requires last + 1 < ROUNDS ==> forall c :: c in p.cases ==> !DisturbedIn(journal, p.engines, c, last)
    ensures forall i :: 0 <= i < |journal| ==> journal[i].key.round <= last
  {
    hide Complete;
    NoneAt(p, journal, last + 1);
    if last + 2 < ROUNDS {
      var next := last + 1;
      forall c, e ensures Cell(journal, c, e, next) == [] { EmptyCell(journal, c, e, next); }
      NotDisturbed();
      NoneAt(p, journal, last + 2);
    }
  }

  lemma NoneAt(p: Plan, journal: seq<Record>, round: nat)
    requires Valid(p, journal) && round > 0
    requires round < ROUNDS ==> forall c :: c in p.cases ==> !DisturbedIn(journal, p.engines, c, round - 1)
    ensures forall i :: 0 <= i < |journal| ==> journal[i].key.round != round
  {
    hide Complete, DisturbedIn;
  }

  // ---- What the scorer finds ----

  predicate RanIn(journal: seq<Record>, case_: string, round: nat) {
    exists i :: 0 <= i < |journal| && journal[i].key.case_ == case_ && journal[i].key.round == round
  }

  ghost predicate IsLastRound(journal: seq<Record>, case_: string, round: nat) {
    RanIn(journal, case_, round) && forall r :: r > round ==> !RanIn(journal, case_, r)
  }

  /** A case stays out of the score when its last round, the third, was still disturbed. */
  predicate Quarantined(p: Plan, journal: seq<Record>, case_: string, round: nat) {
    round >= ROUNDS - 1 && DisturbedIn(journal, p.engines, case_, round)
  }

  datatype Result = FailedCell | Median | Incomplete

  function OkCount(cell: seq<Attempt>): nat {
    if cell == [] then 0 else OkCount(cell[..|cell| - 1]) + if cell[|cell| - 1].status == Ok then 1 else 0
  }

  /** A failure in any rep fails the cell; else all reps must be checked. */
  function ResultOf(cell: seq<Attempt>, reps: nat): Result {
    if exists i :: 0 <= i < |cell| && (cell[i].status == Failed || cell[i].status == Wrong || cell[i].status == Timeout) then
      FailedCell
    else if OkCount(cell) == reps then Median
    else Incomplete
  }

  /** A case ran in a later round exactly when the round before disturbed it. */
  lemma RerunIffDisturbed(p: Plan, journal: seq<Record>, last: nat, case_: string, round: nat)
    requires Valid(p, journal) && Settled(p, journal, last) && case_ in p.cases && p.engines != [] && FirstRep(p) <= p.reps
    requires round + 1 < ROUNDS
    ensures RanIn(journal, case_, round + 1) <==> DisturbedIn(journal, p.engines, case_, round)
  {
    hide DisturbedIn;
    if RanIn(journal, case_, round + 1) {
      var i :| 0 <= i < |journal| && journal[i].key.case_ == case_ && journal[i].key.round == round + 1;
      assert Justified(p, journal, journal[i].key);
    }
    if DisturbedIn(journal, p.engines, case_, round) {
      DisturbedRan(p, journal, case_, round);
      var i :| 0 <= i < |journal| && journal[i].key.case_ == case_ && journal[i].key.round == round;
      assert round <= last;
      if round < last {
        assert Complete(p, journal, round + 1) && Wanted(p, journal, case_, round + 1);
        var k := Key(case_, p.engines[0], FirstRep(p), round + 1);
        assert HasKey(journal, k);
      }
    }
  }

  lemma DisturbedRan(p: Plan, journal: seq<Record>, case_: string, round: nat)
    requires DisturbedIn(journal, p.engines, case_, round)
    ensures RanIn(journal, case_, round)
  {
    hide DisturbedCell;
    var e :| e in p.engines && DisturbedCell(Cell(journal, case_, e, round));
    NotDisturbed();
    CellRan(journal, case_, e, round);
  }

  lemma {:induction false} CellRan(journal: seq<Record>, case_: string, e: string, round: nat)
    requires Cell(journal, case_, e, round) != []
    ensures RanIn(journal, case_, round)
  {
    var front := journal[..|journal| - 1];
    if Cell(front, case_, e, round) != [] {
      CellRan(front, case_, e, round);
      var i :| 0 <= i < |front| && front[i].key.case_ == case_ && front[i].key.round == round;
      assert journal[i].key.case_ == case_ && journal[i].key.round == round;
    } else {
      assert journal[|journal| - 1].key.case_ == case_;
    }
  }

  /** Nothing is pending: a case disturbed in its last round is quarantined. */
  lemma NothingPending(p: Plan, journal: seq<Record>, last: nat, case_: string, round: nat)
    requires Valid(p, journal) && Settled(p, journal, last) && case_ in p.cases && p.engines != [] && FirstRep(p) <= p.reps
    requires IsLastRound(journal, case_, round) && DisturbedIn(journal, p.engines, case_, round)
    ensures Quarantined(p, journal, case_, round)
  {
    hide DisturbedIn, RanIn;
    if round + 1 < ROUNDS { RerunIffDisturbed(p, journal, last, case_, round); }
  }

  /** In round 0 every case has every timed rep of every engine; a hot lane has a warm-up of each too, a cold one has none. */
  lemma FirstRound(p: Plan, journal: seq<Record>, last: nat, case_: string, e: string)
    requires Valid(p, journal) && Settled(p, journal, last) && case_ in p.cases && e in p.engines
    ensures forall rep :: 1 <= rep <= p.reps ==> HasKey(journal, Key(case_, e, rep, 0))
    ensures p.hot ==> HasKey(journal, Key(case_, e, 0, 0))
    ensures !p.hot ==> forall round :: !HasKey(journal, Key(case_, e, 0, round))
  {
    hide DisturbedIn;
    assert Complete(p, journal, 0) && Wanted(p, journal, case_, 0);
  }

  /** A case is set aside exactly when its last round disturbed it; and that is when all three rounds did. */
  lemma QuarantinedIff(p: Plan, journal: seq<Record>, last: nat, case_: string, round: nat)
    requires Valid(p, journal) && Settled(p, journal, last) && case_ in p.cases && p.engines != [] && FirstRep(p) <= p.reps
    requires IsLastRound(journal, case_, round)
    ensures Quarantined(p, journal, case_, round) <==> DisturbedIn(journal, p.engines, case_, round)
    ensures Quarantined(p, journal, case_, round) <==> forall r: nat :: r <= 2 ==> DisturbedIn(journal, p.engines, case_, r)
  {
    hide DisturbedIn, RanIn, Settled;
    if DisturbedIn(journal, p.engines, case_, round) { NothingPending(p, journal, last, case_, round); }
    if Quarantined(p, journal, case_, round) {
      DisturbedBefore(p, journal, case_, round, 0);
      DisturbedBefore(p, journal, case_, round, 1);
      RanBelow(p, journal, case_, round);
    }
    if forall r: nat :: r <= 2 ==> DisturbedIn(journal, p.engines, case_, r) {
      RanBelow(p, journal, case_, round);
      DisturbedRan(p, journal, case_, 2);
    }
  }

  lemma RanBelow(p: Plan, journal: seq<Record>, case_: string, round: nat)
    requires Valid(p, journal) && RanIn(journal, case_, round)
    ensures round < 3
  {
    hide Justified;
    var i :| 0 <= i < |journal| && journal[i].key.case_ == case_ && journal[i].key.round == round;
    assert InPlan(p, journal[i].key);
  }

  lemma {:induction false} DisturbedBefore(p: Plan, journal: seq<Record>, case_: string, round: nat, r: nat)
    requires Valid(p, journal) && RanIn(journal, case_, round) && r < round
    ensures DisturbedIn(journal, p.engines, case_, r)
    decreases round
  {
    hide DisturbedIn;
    var i :| 0 <= i < |journal| && journal[i].key.case_ == case_ && journal[i].key.round == round;
    assert Justified(p, journal, journal[i].key);
    if r < round - 1 {
      DisturbedRan(p, journal, case_, round - 1);
      DisturbedBefore(p, journal, case_, round - 1, r);
    }
  }

  // ---- Every rep of a cell is there once ----

  predicate InCell(k: Key, case_: string, e: string, round: nat, upTo: nat) {
    k.case_ == case_ && k.engine == e && k.round == round && 1 <= k.rep <= upTo
  }

  function CountUpTo(journal: seq<Record>, case_: string, e: string, round: nat, upTo: nat): nat {
    if journal == [] then 0
    else
      CountUpTo(journal[..|journal| - 1], case_, e, round, upTo)
      + if InCell(journal[|journal| - 1].key, case_, e, round, upTo) then 1 else 0
  }

  function CountKey(journal: seq<Record>, k: Key): nat {
    if journal == [] then 0 else CountKey(journal[..|journal| - 1], k) + if journal[|journal| - 1].key == k then 1 else 0
  }

  lemma {:induction false} OneMoreRep(journal: seq<Record>, case_: string, e: string, round: nat, n: nat)
    ensures CountUpTo(journal, case_, e, round, n + 1)
         == CountUpTo(journal, case_, e, round, n) + CountKey(journal, Key(case_, e, n + 1, round))
  {
    if journal != [] { OneMoreRep(journal[..|journal| - 1], case_, e, round, n); }
  }

  lemma {:induction false} NoReps(journal: seq<Record>, case_: string, e: string, round: nat)
    ensures CountUpTo(journal, case_, e, round, 0) == 0
  {
    if journal != [] { NoReps(journal[..|journal| - 1], case_, e, round); }
  }

  lemma {:induction false} KeyOnce(journal: seq<Record>, k: Key)
    requires forall i, j :: 0 <= i < j < |journal| ==> journal[i].key != journal[j].key
    ensures CountKey(journal, k) == if HasKey(journal, k) then 1 else 0
  {
    if journal != [] {
      var front, last := journal[..|journal| - 1], journal[|journal| - 1];
      KeyOnce(front, k);
      HasKeyGrows(front, last, k);
      assert front + [last] == journal;
      if HasKey(front, k) {
        var i :| 0 <= i < |front| && front[i].key == k;
        assert journal[i].key != journal[|journal| - 1].key;
      }
    }
  }

  lemma {:induction false} AllReps(journal: seq<Record>, case_: string, e: string, round: nat, n: nat)
    requires forall i, j :: 0 <= i < j < |journal| ==> journal[i].key != journal[j].key
    requires forall rep :: 1 <= rep <= n ==> HasKey(journal, Key(case_, e, rep, round))
    ensures CountUpTo(journal, case_, e, round, n) == n
  {
    if n == 0 { NoReps(journal, case_, e, round); }
    else {
      AllReps(journal, case_, e, round, n - 1);
      OneMoreRep(journal, case_, e, round, n - 1);
      KeyOnce(journal, Key(case_, e, n, round));
    }
  }

  lemma {:induction false} CellLength(journal: seq<Record>, case_: string, e: string, round: nat, reps: nat)
    requires forall i :: 0 <= i < |journal| ==> journal[i].key.rep <= reps
    ensures |Cell(journal, case_, e, round)| == CountUpTo(journal, case_, e, round, reps)
  {
    if journal != [] { CellLength(journal[..|journal| - 1], case_, e, round, reps); }
  }

  lemma {:induction false} AllOk(cell: seq<Attempt>)
    requires forall i :: 0 <= i < |cell| ==> cell[i].status == Ok
    ensures OkCount(cell) == |cell|
  {
    if cell != [] { AllOk(cell[..|cell| - 1]); }
  }

  /** No scored cell is incomplete: it failed, or it is a median over exactly the planned reps. */
  lemma NoCellIncomplete(p: Plan, journal: seq<Record>, last: nat, case_: string, round: nat, e: string)
    requires Valid(p, journal) && Settled(p, journal, last) && case_ in p.cases && e in p.engines && FirstRep(p) <= p.reps
    requires IsLastRound(journal, case_, round) && !Quarantined(p, journal, case_, round)
    ensures |Cell(journal, case_, e, round)| == p.reps
    ensures ResultOf(Cell(journal, case_, e, round), p.reps) != Incomplete
    ensures var cell := Cell(journal, case_, e, round);
            ResultOf(cell, p.reps) == Median <==> forall i :: 0 <= i < |cell| ==> cell[i].status == Ok
  {
    hide DisturbedIn, RanIn;
    var cell := Cell(journal, case_, e, round);
    if DisturbedIn(journal, p.engines, case_, round) { NothingPending(p, journal, last, case_, round); }
    NoDisturbedRep(p, journal, case_, round, e);
    CellWanted(p, journal, last, case_, round);
    AllReps(journal, case_, e, round, p.reps);
    CellLength(journal, case_, e, round, p.reps);
    if ResultOf(cell, p.reps) != FailedCell {
      forall i | 0 <= i < |cell| ensures cell[i].status == Ok {}
      AllOk(cell);
    }
  }

  lemma NoDisturbedRep(p: Plan, journal: seq<Record>, case_: string, round: nat, e: string)
    requires e in p.engines && !DisturbedIn(journal, p.engines, case_, round)
    ensures var cell := Cell(journal, case_, e, round); forall i :: 0 <= i < |cell| ==> cell[i].status != Disturbed
  {
    hide Cell;
    var cell := Cell(journal, case_, e, round);
    assert !DisturbedCell(cell);
  }

  /** A round that ran a case wanted it, and has every rep of it. */
  lemma CellWanted(p: Plan, journal: seq<Record>, last: nat, case_: string, round: nat)
    requires Valid(p, journal) && Settled(p, journal, last) && case_ in p.cases && RanIn(journal, case_, round)
    ensures forall e, rep :: e in p.engines && FirstRep(p) <= rep <= p.reps ==> HasKey(journal, Key(case_, e, rep, round))
  {
    hide DisturbedIn;
    var i :| 0 <= i < |journal| && journal[i].key.case_ == case_ && journal[i].key.round == round;
    assert Justified(p, journal, journal[i].key);
    assert Complete(p, journal, round) && Wanted(p, journal, case_, round);
  }
}
