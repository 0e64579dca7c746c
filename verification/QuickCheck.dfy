/** The quick A/B check: the first answer of every case and build, then paired timed repetitions of each with the order
    of the builds alternating, whatever cuts the work short, the samples that count in the end, and the exit code that
    they and the stop lead to. */
module QuickCheck {
  import opened Options
  import StableSort

  datatype Engine = Candidate | Base

  /** What is compared of two answers. */
  datatype Identity = Identity(exit: int, stdout: string, stderr: string, outcome: string, artifact: Option<string>)

  /** Why the work stops: the budget is spent, the host is busy, or an answer or input is wrong. */
  datatype Stop = Expired | Busy | Refused

  /** One execution: an answer that passed its own checks, or the reason it did not. */
  datatype Got = Done(id: Identity, wall: nat, validated: bool) | Cut(why: Stop, outcome: string)

  /** Repetition 0 is the first answer; the others are timed on a warm input. */
  datatype Key = Key(case_: string, engine: Engine, rep: nat)

  datatype Row = Row(key: Key, got: Got, incorrect: bool)

  /** `explained` says that a difference in the written Parquet bytes is declared, with a reason. */
  datatype Case = Case(id: string, paired: bool, parquet: bool, explained: bool)

  datatype Plan = Plan(cases: seq<Case>, reps: nat, reference: Option<map<string, map<Engine, Identity>>>, noise: real)

  /** What loading the manifest and the configuration checks. */
  predicate Sound(p: Plan) {
    && p.cases != [] && p.reps >= 1 && p.noise >= 0.0
    && forall i, j :: 0 <= i < j < |p.cases| ==> p.cases[i].id != p.cases[j].id
  }

  predicate Good(r: Row) { r.got.Done? && !r.incorrect }

  // ---- One turn: every engine of one case, once ----

  function Engines(c: Case): seq<Engine> { if c.paired then [Candidate, Base] else [Candidate] }

  /** The base goes first in every other repetition. */
  function Order(c: Case, rep: nat): seq<Key> {
    if !c.paired then [Key(c.id, Candidate, rep)]
    else if rep == 0 || rep % 2 == 1 then [Key(c.id, Candidate, rep), Key(c.id, Base, rep)]
    else [Key(c.id, Base, rep), Key(c.id, Candidate, rep)]
  }

  predicate WasCut(rows: seq<Row>) { rows != [] && rows[|rows| - 1].got.Cut? }

  /** The executions up to the first that is cut. */
  function Tried(keys: seq<Key>, attempt: Key -> Got): (rows: seq<Row>)
    ensures |rows| <= |keys| && (keys != [] ==> rows != []) && (!WasCut(rows) ==> |rows| == |keys|)
    ensures forall i :: 0 <= i < |rows| ==> rows[i] == Row(keys[i], attempt(keys[i]), false)
    ensures forall i :: 0 <= i < |rows| - 1 ==> rows[i].got.Done?
  {
    if keys == [] then []
    else
      var front, k := Tried(keys[..|keys| - 1], attempt), keys[|keys| - 1];
      if WasCut(front) then front else front + [Row(k, attempt(k), false)]
  }

  predicate AllDone(rows: seq<Row>) { forall i :: 0 <= i < |rows| ==> rows[i].got.Done? }

  /** Two builds answer alike; only Parquet bytes may differ, and only when that is declared and both files are validated. */
  predicate Agree(c: Case, a: Got, b: Got)
    requires a.Done? && b.Done?
  {
    || a.id == b.id
    || (c.parquet && c.explained && a.validated && b.validated && a.id.outcome == "answer" && a.id.exit == 0
        && b.id == a.id.(artifact := b.id.artifact))
  }

  predicate PairAgrees(c: Case, rows: seq<Row>)
    requires AllDone(rows)
  {
    |rows| == 2 ==> Agree(c, rows[0].got, rows[1].got)
  }

  function Identities(rows: seq<Row>): map<Engine, Identity>
    requires AllDone(rows)
  {
    if rows == [] then map[] else Identities(rows[..|rows| - 1])[rows[|rows| - 1].key.engine := rows[|rows| - 1].got.id]
  }

  /** Another host's answers, when given, are these. */
  predicate ReferenceAgrees(p: Plan, c: Case, rows: seq<Row>)
    requires AllDone(rows)
  {
    p.reference.Some? ==> c.id in p.reference.value && p.reference.value[c.id] == Identities(rows)
  }

  function FirstKey(k: Key): Key { k.(rep := 0) }

  /** The answer is the first answer again. */
  predicate Repeats(r: Row, attempt: Key -> Got) {
    r.got.Done? && attempt(FirstKey(r.key)).Done? && attempt(FirstKey(r.key)).id == r.got.id
  }

  /** Where the first row stands that does not repeat its first answer. */
  function FirstChanged(rows: seq<Row>, attempt: Key -> Got): (k: nat)
    ensures k <= |rows| && (k < |rows| ==> !Repeats(rows[k], attempt))
    ensures forall i :: 0 <= i < k ==> Repeats(rows[i], attempt)
  {
    if rows == [] then 0
    else if !Repeats(rows[0], attempt) then 0
    else 1 + FirstChanged(rows[1..], attempt)
  }

  function Marked(rows: seq<Row>): seq<Row> {
    seq(|rows|, i requires 0 <= i < |rows| => rows[i].(incorrect := true))
  }

  datatype Turned = Turned(rows: seq<Row>, stop: Option<Stop>)

  function TurnOf(p: Plan, attempt: Key -> Got, c: Case, rep: nat): Turned {
    var rows := Tried(Order(c, rep), attempt);
    if WasCut(rows) then Turned(rows, Some(rows[|rows| - 1].got.why))
    else if !PairAgrees(c, rows) then Turned(Marked(rows), Some(Refused))
    else if rep == 0 then Turned(rows, if ReferenceAgrees(p, c, rows) then None else Some(Refused))
    else
      var k := FirstChanged(rows, attempt);
      if k < |rows| then Turned(rows[k := rows[k].(incorrect := true)], Some(Refused)) else Turned(rows, None)
  }

  function CaseAt(p: Plan, t: nat): Case
    requires p.cases != []
  {
    p.cases[t % |p.cases|]
  }

  function RepAt(p: Plan, t: nat): nat
    requires p.cases != []
  {
    t / |p.cases|
  }

  /** The first `t` turns: repetition by repetition, and case by case within one. */
  function RunTo(p: Plan, attempt: Key -> Got, t: nat): Turned
    requires p.cases != []
  {
    if t == 0 then Turned([], None)
    else
      var before := RunTo(p, attempt, t - 1);
      if before.stop.Some? then before
      else
        var turn := TurnOf(p, attempt, CaseAt(p, t - 1), RepAt(p, t - 1));
        Turned(before.rows + turn.rows, turn.stop)
  }

  function AllTurns(p: Plan): nat { (p.reps + 1) * |p.cases| }

  // ---- The report ----

  predicate HasGood(rows: seq<Row>, k: Key) {
    exists i :: 0 <= i < |rows| && rows[i].key == k && Good(rows[i])
  }

  /** A timed sample counts when every first answer was checked and its partner of the same repetition is good too. */
  predicate Selected(c: Case, rows: seq<Row>, hashed: bool, r: Row) {
    hashed && r.key.rep > 0 && Good(r) && forall e :: e in Engines(c) ==> HasGood(rows, r.key.(engine := e))
  }

  /** The selected samples of a case and engine among `some`. */
  function Samples(c: Case, e: Engine, rows: seq<Row>, hashed: bool, some: seq<Row>): seq<Row> {
    if some == [] then []
    else
      var r := some[|some| - 1];
      Samples(c, e, rows, hashed, some[..|some| - 1])
      + if r.key.case_ == c.id && r.key.engine == e && Selected(c, rows, hashed, r) then [r] else []
  }

  function Walls(rows: seq<Row>): (w: seq<nat>)
    ensures |w| == |rows|
  {
    seq(|rows|, i requires 0 <= i < |rows| => if rows[i].got.Done? then rows[i].got.wall else 0)
  }

  function Median(times: seq<nat>): real
    requires times != []
  {
    var s := StableSort.Sort(times, (x: nat, y: nat) => x <= y);
    if |s| % 2 == 1 then s[|s| / 2] as real else (s[|s| / 2 - 1] + s[|s| / 2]) as real / 2.0
  }

  function OutcomeOf(r: Row): string { if r.got.Done? then r.got.id.outcome else r.got.outcome }

  /** The engine was tried, and answered every time. */
  predicate Answers(rows: seq<Row>, c: Case, e: Engine) {
    && (exists i :: 0 <= i < |rows| && rows[i].key.case_ == c.id && rows[i].key.engine == e)
    && forall i :: 0 <= i < |rows| && rows[i].key.case_ == c.id && rows[i].key.engine == e ==> OutcomeOf(rows[i]) == "answer"
  }

  predicate CellComplete(p: Plan, rows: seq<Row>, hashed: bool, c: Case, e: Engine) {
    |Samples(c, e, rows, hashed, rows)| == p.reps
  }

  predicate CaseComplete(p: Plan, rows: seq<Row>, hashed: bool, c: Case) {
    forall e :: e in Engines(c) ==> CellComplete(p, rows, hashed, c, e)
  }

  /** Both builds answered every time, and the candidate's median is slower than the noise allows. */
  predicate Flagged(p: Plan, rows: seq<Row>, hashed: bool, c: Case)
    requires p.reps >= 1
  {
    && c.paired && CellComplete(p, rows, hashed, c, Candidate) && CellComplete(p, rows, hashed, c, Base)
    && Answers(rows, c, Candidate) && Answers(rows, c, Base)
    && var a, b := Median(Walls(Samples(c, Candidate, rows, hashed, rows))), Median(Walls(Samples(c, Base, rows, hashed, rows)));
       b != 0.0 && a / b > 1.0 + p.noise / 100.0
  }

  predicate Covered(p: Plan, rows: seq<Row>, hashed: bool) {
    p.cases != [] && forall c :: c in p.cases ==> CaseComplete(p, rows, hashed, c)
  }

  const PASSED := 0
  const UNFINISHED := 2
  const FAILED := 3

  function ExitCode(p: Plan, rows: seq<Row>, hashed: bool, stop: Option<Stop>): int
    requires p.reps >= 1
  {
    match stop
    case Some(Refused) => FAILED
    case Some(_) => UNFINISHED
    case None => if Covered(p, rows, hashed) && exists c :: c in p.cases && Flagged(p, rows, hashed, c) then FAILED else PASSED
  }

  // ---- What the median and the flag say ----

  /** `t` is the times in ascending order. */
  predicate Ascending(times: seq<nat>, t: seq<nat>) {
    multiset(t) == multiset(times) && |t| == |times| && forall i, j :: 0 <= i < j < |t| ==> t[i] <= t[j]
  }

  /** The median is halfway between the two middle times, which are one when their number is odd. */
  lemma MedianIsMiddle(times: seq<nat>) returns (t: seq<nat>)
    requires times != []
    ensures Ascending(times, t)
    ensures 2.0 * Median(times) == t[(|t| - 1) / 2] as real + t[|t| / 2] as real
  {
    var le := (x: nat, y: nat) => x <= y;
    t := StableSort.Sort(times, le);
    AscendingSort(times);
    Halves(|t|);
    hide Ascending, StableSort.Sort;
    assert Median(times) == if |t| % 2 == 1 then t[|t| / 2] as real else (t[|t| / 2 - 1] + t[|t| / 2]) as real / 2.0;
  }

  lemma AscendingSort(times: seq<nat>)
    ensures Ascending(times, StableSort.Sort(times, (x: nat, y: nat) => x <= y))
  {
    var le := (x: nat, y: nat) => x <= y;
    var t := StableSort.Sort(times, le);
    StableSort.SortIsStable(times, le);
    assert |multiset(t)| == |multiset(times)|;
    assert forall i, j :: 0 <= i < j < |t| ==> le(t[i], t[j]);
  }

  lemma Halves(n: nat)
    requires n > 0
    ensures (n - 1) / 2 == if n % 2 == 1 then n / 2 else n / 2 - 1
  {
  }

  /** The times of an engine that count. */
  function Times(rows: seq<Row>, hashed: bool, c: Case, e: Engine): seq<nat> {
    Walls(Samples(c, e, rows, hashed, rows))
  }

  /** It ran, and its outcome is an answer. */
  predicate IsAnswer(r: Row) {
    match r.got
    case Done(id, _, _) => id.outcome == "answer"
    case Cut(_, outcome) => outcome == "answer"
  }

  lemma {:induction false} Sampled(c: Case, e: Engine, rows: seq<Row>, hashed: bool, some: seq<Row>)
    ensures Samples(c, e, rows, hashed, some) != [] ==>
      exists i :: 0 <= i < |some| && some[i].key.case_ == c.id && some[i].key.engine == e
  {
    hide Selected;
    if some != [] {
      var front := some[..|some| - 1];
      Sampled(c, e, rows, hashed, front);
      if i :| 0 <= i < |front| && front[i].key.case_ == c.id && front[i].key.engine == e { assert some[i] == front[i]; }
    }
  }

  /** A case is flagged exactly when both builds answered every time, each has all its samples, and the candidate's median is
      above the base's by more than the noise, in hundredths of the base's. */
  lemma FlaggedIff(p: Plan, rows: seq<Row>, hashed: bool, c: Case)
    requires Sound(p)
    ensures Flagged(p, rows, hashed, c) <==>
      && c.paired && (forall r :: r in rows && r.key.case_ == c.id ==> IsAnswer(r))
      && |Times(rows, hashed, c, Candidate)| == p.reps && |Times(rows, hashed, c, Base)| == p.reps
      && var candidate, base := Median(Times(rows, hashed, c, Candidate)), Median(Times(rows, hashed, c, Base));
         base > 0.0 && 100.0 * (candidate - base) > p.noise * base
    ensures Flagged(p, rows, hashed, c) ==>
      Median(Times(rows, hashed, c, Candidate)) > Median(Times(rows, hashed, c, Base))
  {
    hide Samples, Median, Selected;
    var a, b := Times(rows, hashed, c, Candidate), Times(rows, hashed, c, Base);
    if |a| == p.reps && |b| == p.reps {
      Sampled(c, Candidate, rows, hashed, rows);
      Sampled(c, Base, rows, hashed, rows);
      var t := MedianIsMiddle(b);
      RatioAbove(Median(a), Median(b), p.noise);
    }
  }

  lemma RatioAbove(a: real, b: real, noise: real)
    requires b >= 0.0 && noise >= 0.0
    ensures b != 0.0 ==> (a / b > 1.0 + noise / 100.0 <==> 100.0 * (a - b) > noise * b)
    ensures 100.0 * (a - b) > noise * b ==> a > b
  {
    assert noise * b >= 0.0;
    if b != 0.0 {
      var q := a / b;
      assert a == q * b;
      var d := 100.0 * (q - 1.0) - noise;
      assert 100.0 * (a - b) - noise * b == d * b;
      if d > 0.0 { assert d * b > 0.0; } else { assert d * b <= 0.0; }
    }
  }

  /** 0 for a run that passed, 2 for one that was cut, and 3 for a wrong answer or a flagged case. */
  lemma ExitCodes(p: Plan, rows: seq<Row>, hashed: bool, stop: Option<Stop>)
    requires p.reps >= 1
    ensures var code, flagged := ExitCode(p, rows, hashed, stop), Covered(p, rows, hashed) && exists c :: c in p.cases && Flagged(p, rows, hashed, c);
      && (code == 0 <==> stop == None && !flagged)
      && (code == 2 <==> stop == Some(Expired) || stop == Some(Busy))
      && (code == 3 <==> stop == Some(Refused) || (stop == None && flagged))
  {
    hide Covered, Flagged;
  }

  /** Two answers agree when nothing differs, or when only the bytes of a Parquet file do, the case gives a reason for that, both
      builds ended well with an answer, and both files were validated. */
  lemma AgreeMeans(c: Case, a: Got, b: Got)
    requires a.Done? && b.Done?
    ensures Agree(c, a, b) <==>
      && a.id.exit == b.id.exit && a.id.stdout == b.id.stdout && a.id.stderr == b.id.stderr && a.id.outcome == b.id.outcome
      && (a.id.artifact != b.id.artifact ==>
           c.parquet && c.explained && a.validated && b.validated && b.id.outcome == "answer" && b.id.exit == 0)
  {
  }

  /** The candidate goes first in the first answers and in the first repetition, and from one repetition to the next the builds
      change places. */
  lemma OrderAlternates(c: Case, rep: nat)
    requires c.paired
    ensures Order(c, 0) == [Key(c.id, Candidate, 0), Key(c.id, Base, 0)]
    ensures Order(c, 1) == [Key(c.id, Candidate, 1), Key(c.id, Base, 1)]
    ensures rep >= 1 ==> |Order(c, rep)| == |Order(c, rep + 1)| == 2
    ensures rep >= 1 ==> Order(c, rep + 1) == [Order(c, rep)[1].(rep := rep + 1), Order(c, rep)[0].(rep := rep + 1)]
  {
  }

  // ---- The worker ----

  function CutOf(rows: seq<Row>): Option<Stop> { if WasCut(rows) then Some(rows[|rows| - 1].got.why) else None }

  /** What the hash pass remembers of a case. */
  predicate Remembers(hashes: map<string, map<Engine, Identity>>, attempt: Key -> Got, c: Case) {
    c.id in hashes && forall e :: e in Engines(c) ==>
      e in hashes[c.id] && attempt(Key(c.id, e, 0)).Done? && hashes[c.id][e] == attempt(Key(c.id, e, 0)).id
  }

  class Run {
    var attempts: seq<Row>

    constructor ()
      ensures attempts == []
    {
      attempts := [];
    }

    method Execute(k: Key, attempt: Key -> Got) returns (cut: Option<Stop>)
      modifies this
      ensures attempts == old(attempts) + [Row(k, attempt(k), false)]
      ensures cut == if attempt(k).Cut? then Some(attempt(k).why) else None
    {
      var got := attempt(k);
      attempts := attempts + [Row(k, got, false)];
      cut := if got.Cut? then Some(got.why) else None;
    }

    method ExecuteAll(keys: seq<Key>, attempt: Key -> Got) returns (cut: Option<Stop>)
      modifies this
      ensures attempts == old(attempts) + Tried(keys, attempt)
      ensures cut == CutOf(Tried(keys, attempt))
    {
      hide Tried;
      cut := None;
      NoneTried(keys, attempt);
      for i := 0 to |keys|
        invariant attempts == old(attempts) + Tried(keys[..i], attempt)
        invariant cut == CutOf(Tried(keys[..i], attempt)) && cut.None?
      {
        TriedMore(keys, attempt, i);
        cut := Execute(keys[i], attempt);
        if cut.Some? {
          StaysCut(keys, attempt, i + 1);
          return;
        }
      }
      assert keys[..|keys|] == keys;
    }

    method MarkIncorrect(from: nat)
      requires from <= |attempts|
      modifies this
      ensures attempts == old(attempts)[..from] + Marked(old(attempts)[from..])
    {
      for i := from to |attempts|
        invariant |attempts| == |old(attempts)|
        invariant forall k :: 0 <= k < |attempts| ==>
          attempts[k] == if from <= k < i then old(attempts)[k].(incorrect := true) else old(attempts)[k]
      {
        attempts := attempts[i := attempts[i].(incorrect := true)];
      }
    }

    /** The first answers of a case: both builds agree, and agree with another host's when those are given. */
    method HashTurn(p: Plan, c: Case, attempt: Key -> Got) returns (stop: Option<Stop>, identities: map<Engine, Identity>)
      modifies this
      ensures var turn := TurnOf(p, attempt, c, 0);
        && attempts == old(attempts) + turn.rows && stop == turn.stop
        && (stop.None? ==> AllDone(turn.rows) && identities == Identities(turn.rows))
    {
      var from := |attempts|;
      identities := map[];
      stop := ExecuteAll(Order(c, 0), attempt);
      if stop.Some? { return; }
      var pair := attempts[from..];
      if !PairAgrees(c, pair) {
        MarkIncorrect(from);
        stop := Some(Refused);
        return;
      }
      identities := Identities(pair);
      if !ReferenceAgrees(p, c, pair) { stop := Some(Refused); }
    }

    /** A timed repetition of a case: both builds agree, and each with its first answer. */
    method HotTurn(p: Plan, c: Case, rep: nat, attempt: Key -> Got, hashes: map<string, map<Engine, Identity>>)
      returns (stop: Option<Stop>)
      requires rep > 0 && Remembers(hashes, attempt, c)
      modifies this
      ensures var turn := TurnOf(p, attempt, c, rep); attempts == old(attempts) + turn.rows && stop == turn.stop
    {
      hide Order, Tried, PairAgrees, FirstChanged, Remembers, Repeats;
      var from := |attempts|;
      OrderOf(c, rep);
      stop := ExecuteAll(Order(c, rep), attempt);
      if stop.Some? { return; }
      var pair := attempts[from..];
      if !PairAgrees(c, pair) {
        MarkIncorrect(from);
        stop := Some(Refused);
        return;
      }
      for i := 0 to |pair|
        invariant attempts == old(attempts) + pair
        invariant forall k :: 0 <= k < i ==> Repeats(pair[k], attempt)
      {
        RepeatsIfSame(hashes, attempt, c, pair[i]);
        if pair[i].got.id != hashes[c.id][pair[i].key.engine] {
          FirstChangedIs(pair, attempt, i);
          attempts := attempts[from + i := attempts[from + i].(incorrect := true)];
          stop := Some(Refused);
          return;
        }
      }
      FirstChangedIs(pair, attempt, |pair|);
    }

    /** The whole check: `setup` and `rivals` say whether the steps before and after the turns stop it. */
    method Worker(p: Plan, attempt: Key -> Got, setup: Option<Stop>, rivals: Option<Stop>) returns (code: int)
      requires Sound(p) && attempts == []
      modifies this
      ensures var turns := if setup.Some? then Turned([], setup) else RunTo(p, attempt, AllTurns(p));
        && attempts == turns.rows
        && code == ExitCode(p, attempts, setup.None? && RunTo(p, attempt, |p.cases|).stop.None?,
                            if turns.stop.Some? then turns.stop else rivals)
      ensures code == 0 <==> Passes(p, attempt, setup, rivals)
    {
      hide TurnOf, RunTo, ExitCode, Remembers, CaseAt, RepAt, Passes;
      var stop := setup;
      var hashed := false;
      if stop.None? {
        var hashes: map<string, map<Engine, Identity>>;
        stop, hashes := HashPass(p, attempt);
        if stop.None? {
          hashed := true;
          stop := HotPhase(p, attempt, hashes);
          if stop.None? { stop := rivals; }
        }
      }
      code := ExitCode(p, attempts, hashed, stop);
      PassedIff(p, attempt, setup, rivals);
    }

    method HashPass(p: Plan, attempt: Key -> Got) returns (stop: Option<Stop>, hashes: map<string, map<Engine, Identity>>)
      requires Sound(p) && attempts == []
      modifies this
      ensures attempts == RunTo(p, attempt, |p.cases|).rows && stop == RunTo(p, attempt, |p.cases|).stop
      ensures stop.Some? ==> RunTo(p, attempt, AllTurns(p)) == RunTo(p, attempt, |p.cases|)
      ensures stop.None? ==> forall c :: c in p.cases ==> Remembers(hashes, attempt, c)
    {
      hide TurnOf, RunTo, Remembers, CaseAt, RepAt;
      hashes := map[];
      NoTurns(p, attempt);
      for i := 0 to |p.cases|
        invariant attempts == RunTo(p, attempt, i).rows && RunTo(p, attempt, i).stop.None?
        invariant forall k :: 0 <= k < i ==> Remembers(hashes, attempt, p.cases[k])
      {
        TurnNumber(p, 0, i);
        NextTurn(p, attempt, i);
        var identities;
        stop, identities := HashTurn(p, p.cases[i], attempt);
        if stop.Some? {
          StaysStopped(p, attempt, i + 1, |p.cases|);
          StaysStopped(p, attempt, |p.cases|, AllTurns(p));
          return;
        }
        ghost var before := hashes;
        hashes := hashes[p.cases[i].id := identities];
        RemembersTurn(p, attempt, p.cases[i], identities, before);
        forall k | 0 <= k < i ensures Remembers(hashes, attempt, p.cases[k]) {
          RemembersOthers(before, attempt, p.cases[k], p.cases[i].id, identities);
        }
      }
      stop := None;
    }

    method HotPhase(p: Plan, attempt: Key -> Got, hashes: map<string, map<Engine, Identity>>) returns (stop: Option<Stop>)
      requires Sound(p) && forall c :: c in p.cases ==> Remembers(hashes, attempt, c)
      requires attempts == RunTo(p, attempt, |p.cases|).rows && RunTo(p, attempt, |p.cases|).stop.None?
      modifies this
      ensures attempts == RunTo(p, attempt, AllTurns(p)).rows && stop == RunTo(p, attempt, AllTurns(p)).stop
    {
      hide TurnOf, RunTo, Remembers, CaseAt, RepAt;
      for rep := 1 to p.reps + 1
        invariant attempts == RunTo(p, attempt, rep * |p.cases|).rows && RunTo(p, attempt, rep * |p.cases|).stop.None?
      {
        for i := 0 to |p.cases|
          invariant attempts == RunTo(p, attempt, rep * |p.cases| + i).rows
          invariant RunTo(p, attempt, rep * |p.cases| + i).stop.None?
        {
          TurnNumber(p, rep, i);
          NextTurn(p, attempt, rep * |p.cases| + i);
          stop := HotTurn(p, p.cases[i], rep, attempt, hashes);
          if stop.Some? {
            StaysStopped(p, attempt, rep * |p.cases| + i + 1, AllTurns(p));
            return;
          }
        }
        NextRep(p, rep);
      }
      stop := None;
    }
  }

  lemma NoneTried(keys: seq<Key>, attempt: Key -> Got)
    ensures Tried(keys[..0], attempt) == []
  {
  }

  lemma TriedMore(keys: seq<Key>, attempt: Key -> Got, i: nat)
    requires i < |keys| && !WasCut(Tried(keys[..i], attempt))
    ensures Tried(keys[..i + 1], attempt) == Tried(keys[..i], attempt) + [Row(keys[i], attempt(keys[i]), false)]
  {
    assert keys[..i + 1][..i] == keys[..i];
  }

  lemma {:induction false} StaysCut(keys: seq<Key>, attempt: Key -> Got, n: nat)
    requires n <= |keys| && WasCut(Tried(keys[..n], attempt))
    ensures Tried(keys, attempt) == Tried(keys[..n], attempt)
    decreases |keys|
  {
    if n == |keys| {
      assert keys[..n] == keys;
    } else {
      var front := keys[..|keys| - 1];
      assert front[..n] == keys[..n];
      StaysCut(front, attempt, n);
    }
  }

  lemma OrderOf(c: Case, rep: nat)
    ensures forall i :: 0 <= i < |Order(c, rep)| ==>
      Order(c, rep)[i] == Key(c.id, Order(c, rep)[i].engine, rep) && Order(c, rep)[i].engine in Engines(c)
    ensures |Order(c, rep)| == |Engines(c)| && (c.paired ==> Order(c, rep)[0].engine != Order(c, rep)[1].engine)
  {
  }

  lemma {:induction false} FirstChangedIs(rows: seq<Row>, attempt: Key -> Got, k: nat)
    requires k <= |rows| && forall i :: 0 <= i < k ==> Repeats(rows[i], attempt)
    requires k < |rows| ==> !Repeats(rows[k], attempt)
    ensures FirstChanged(rows, attempt) == k
  {
  }

  lemma NoTurns(p: Plan, attempt: Key -> Got)
    requires p.cases != []
    ensures RunTo(p, attempt, 0) == Turned([], None)
  {
  }

  lemma TurnNumber(p: Plan, rep: nat, i: nat)
    requires i < |p.cases|
    ensures CaseAt(p, rep * |p.cases| + i) == p.cases[i] && RepAt(p, rep * |p.cases| + i) == rep
    ensures rep <= p.reps ==> rep * |p.cases| + i + 1 <= AllTurns(p)
  {
    var n := |p.cases|;
    DivMod(rep * n + i, n, rep, i);
    if rep <= p.reps { assert (rep + 1) * n <= (p.reps + 1) * n; }
  }

  lemma NonZeroMultiple(d: int, n: int)
    requires n >= 0
    ensures d > 0 ==> d * n >= n
    ensures d < 0 ==> d * n <= -n
  {
  }

  lemma DivMod(t: nat, n: nat, q: nat, r: nat)
    requires n > 0 && r < n && t == q * n + r
    ensures t / n == q && t % n == r
  {
    var d: int := t / n - q;
    assert d * n == r - t % n;
    NonZeroMultiple(d, n);
  }

  lemma NextRep(p: Plan, rep: nat)
    ensures rep * |p.cases| + |p.cases| == (rep + 1) * |p.cases|
  {
  }

  lemma NextTurn(p: Plan, attempt: Key -> Got, t: nat)
    requires p.cases != [] && RunTo(p, attempt, t).stop.None?
    ensures var before, turn := RunTo(p, attempt, t), TurnOf(p, attempt, CaseAt(p, t), RepAt(p, t));
      RunTo(p, attempt, t + 1) == Turned(before.rows + turn.rows, turn.stop)
  {
    hide TurnOf, CaseAt, RepAt;
  }

  lemma {:induction false} StaysStopped(p: Plan, attempt: Key -> Got, t: nat, u: nat)
    requires p.cases != [] && t <= u && RunTo(p, attempt, t).stop.Some?
    ensures RunTo(p, attempt, u) == RunTo(p, attempt, t)
    decreases u
  {
    hide TurnOf;
    if t < u { StaysStopped(p, attempt, t, u - 1); }
  }

  lemma RepeatsIfSame(hashes: map<string, map<Engine, Identity>>, attempt: Key -> Got, c: Case, r: Row)
    requires Remembers(hashes, attempt, c) && r.got.Done? && r.key.case_ == c.id && r.key.engine in Engines(c)
    ensures c.id in hashes && r.key.engine in hashes[c.id]
    ensures Repeats(r, attempt) <==> r.got.id == hashes[c.id][r.key.engine]
  {
  }

  lemma RemembersTurn(p: Plan, attempt: Key -> Got, c: Case, identities: map<Engine, Identity>, before: map<string, map<Engine, Identity>>)
    requires var turn := TurnOf(p, attempt, c, 0); turn.stop.None? && AllDone(turn.rows) && identities == Identities(turn.rows)
    ensures Remembers(before[c.id := identities], attempt, c)
  {
  }

  lemma RemembersOthers(hashes: map<string, map<Engine, Identity>>, attempt: Key -> Got, c: Case, id: string, identities: map<Engine, Identity>)
    requires Remembers(hashes, attempt, c) && id != c.id
    ensures Remembers(hashes[id := identities], attempt, c)
  {
  }

  // ---- What one turn leaves ----

  /** A turn's rows name its case and repetition, each engine at most once. */
  lemma TurnKeys(p: Plan, attempt: Key -> Got, c: Case, rep: nat)
    ensures var rows := TurnOf(p, attempt, c, rep).rows;
      && 0 < |rows| <= |Engines(c)|
      && (forall i :: 0 <= i < |rows| ==> rows[i].key == Order(c, rep)[i] && rows[i].got == attempt(rows[i].key))
      && (forall i :: 0 <= i < |rows| ==> rows[i].key.case_ == c.id && rows[i].key.rep == rep && rows[i].key.engine in Engines(c))
      && (forall i, j :: 0 <= i < j < |rows| ==> rows[i].key != rows[j].key)
  {
    OrderOf(c, rep);
  }

  /** Every engine answered, the builds agree, and timed answers are the first ones again. */
  predicate Clean(p: Plan, attempt: Key -> Got, c: Case, rep: nat) {
    && (forall e :: e in Engines(c) ==> attempt(Key(c.id, e, rep)).Done?)
    && (c.paired ==> Agree(c, attempt(Key(c.id, Candidate, rep)), attempt(Key(c.id, Base, rep))))
    && (rep > 0 ==> forall e :: e in Engines(c) ==>
          attempt(Key(c.id, e, 0)).Done? && attempt(Key(c.id, e, 0)).id == attempt(Key(c.id, e, rep)).id)
    && (rep == 0 && p.reference.Some? ==>
          && c.id in p.reference.value
          && p.reference.value[c.id] == map e: Engine | e in Engines(c) :: attempt(Key(c.id, e, 0)).id)
  }

  lemma OrderCovers(c: Case, rep: nat, e: Engine) returns (i: nat)
    requires e in Engines(c)
    ensures i < |Order(c, rep)| && Order(c, rep)[i] == Key(c.id, e, rep)
  {
    i := if c.paired && (e == Base) == (rep == 0 || rep % 2 == 1) then 1 else 0;
  }

  /** No execution of the turn is cut exactly when every engine answers. */
  lemma UncutIffDone(c: Case, rep: nat, attempt: Key -> Got)
    ensures var rows := Tried(Order(c, rep), attempt);
      !WasCut(rows) <==> forall e :: e in Engines(c) ==> attempt(Key(c.id, e, rep)).Done?
  {
    hide Order, Engines;
    OrderOf(c, rep);
    var rows := Tried(Order(c, rep), attempt);
    if !WasCut(rows) {
      forall e | e in Engines(c) ensures attempt(Key(c.id, e, rep)).Done? {
        var i := OrderCovers(c, rep, e);
        assert rows[i].got.Done?;
      }
    }
  }

  /** The rows of an uncut turn, whichever build goes first. */
  lemma UncutPair(c: Case, rep: nat, attempt: Key -> Got)
    requires !WasCut(Tried(Order(c, rep), attempt))
    ensures var rows := Tried(Order(c, rep), attempt);
      && AllDone(rows)
      && (PairAgrees(c, rows) <==> (c.paired ==> Agree(c, attempt(Key(c.id, Candidate, rep)), attempt(Key(c.id, Base, rep)))))
  {
    UncutIffDone(c, rep, attempt);
  }

  lemma UnchangedIffRepeats(c: Case, rep: nat, attempt: Key -> Got)
    requires !WasCut(Tried(Order(c, rep), attempt))
    ensures var rows := Tried(Order(c, rep), attempt);
      FirstChanged(rows, attempt) == |rows| <==>
      forall e :: e in Engines(c) ==>
        attempt(Key(c.id, e, 0)).Done? && attempt(Key(c.id, e, 0)).id == attempt(Key(c.id, e, rep)).id
  {
    UncutIffDone(c, rep, attempt);
    hide Order, Engines, Tried;
    OrderOf(c, rep);
    TriedRows(c, rep, attempt);
    var rows := Tried(Order(c, rep), attempt);
    if FirstChanged(rows, attempt) == |rows| {
      forall e | e in Engines(c)
        ensures attempt(Key(c.id, e, 0)).Done? && attempt(Key(c.id, e, 0)).id == attempt(Key(c.id, e, rep)).id
      {
        var i := OrderCovers(c, rep, e);
        assert Repeats(rows[i], attempt);
      }
    }
  }

  lemma TriedRows(c: Case, rep: nat, attempt: Key -> Got)
    requires !WasCut(Tried(Order(c, rep), attempt))
    ensures var rows := Tried(Order(c, rep), attempt);
      |rows| == |Order(c, rep)| && forall i :: 0 <= i < |rows| ==> rows[i] == Row(Order(c, rep)[i], attempt(Order(c, rep)[i]), false)
  {
  }

  lemma FirstIdentities(c: Case, attempt: Key -> Got)
    requires !WasCut(Tried(Order(c, 0), attempt))
    ensures AllDone(Tried(Order(c, 0), attempt))
    ensures forall e :: e in Engines(c) ==> attempt(Key(c.id, e, 0)).Done?
    ensures Identities(Tried(Order(c, 0), attempt)) == map e: Engine | e in Engines(c) :: attempt(Key(c.id, e, 0)).id
  {
    UncutIffDone(c, 0, attempt);
    UncutPair(c, 0, attempt);
    var rows := Tried(Order(c, 0), attempt);
    assert Identities(rows[..|rows| - 1]) == if c.paired then map[Candidate := rows[0].got.id] else map[];
  }

  lemma TurnPassesIffClean(p: Plan, attempt: Key -> Got, c: Case, rep: nat)
    ensures TurnOf(p, attempt, c, rep).stop.None? <==> Clean(p, attempt, c, rep)
  {
    hide Order, Engines, Tried, WasCut, PairAgrees, Agree, FirstChanged, Repeats, Identities;
    UncutIffDone(c, rep, attempt);
    if !WasCut(Tried(Order(c, rep), attempt)) {
      UncutPair(c, rep, attempt);
      if rep == 0 { FirstIdentities(c, attempt); } else { UnchangedIffRepeats(c, rep, attempt); }
    }
  }

  /** A timed turn that stops leaves some engine without a good row. */
  lemma StoppedLacks(p: Plan, attempt: Key -> Got, c: Case, rep: nat) returns (e: Engine)
    requires rep > 0 && TurnOf(p, attempt, c, rep).stop.Some?
    ensures e in Engines(c) && !HasGood(TurnOf(p, attempt, c, rep).rows, Key(c.id, e, rep))
  {
    var i := BadRow(p, attempt, c, rep);
    TurnKeys(p, attempt, c, rep);
    hide TurnOf, Order, Engines;
    e := TurnOf(p, attempt, c, rep).rows[i].key.engine;
  }

  lemma BadRow(p: Plan, attempt: Key -> Got, c: Case, rep: nat) returns (i: nat)
    requires rep > 0 && TurnOf(p, attempt, c, rep).stop.Some?
    ensures i < |TurnOf(p, attempt, c, rep).rows| && !Good(TurnOf(p, attempt, c, rep).rows[i])
  {
    TurnKeys(p, attempt, c, rep);
    hide Order, Tried, PairAgrees, Repeats;
    var rows := Tried(Order(c, rep), attempt);
    i := if WasCut(rows) then |rows| - 1 else if !PairAgrees(c, rows) then 0 else FirstChanged(rows, attempt);
  }

  /** The rows of a turn that passes are all there, and good. */
  lemma PassedTurnGood(p: Plan, attempt: Key -> Got, c: Case, rep: nat, e: Engine)
    requires TurnOf(p, attempt, c, rep).stop.None? && e in Engines(c)
    ensures HasGood(TurnOf(p, attempt, c, rep).rows, Key(c.id, e, rep))
  {
    hide Order, Engines, PairAgrees, FirstChanged, Identities;
    TriedRows(c, rep, attempt);
    var i := OrderCovers(c, rep, e);
    assert Good(TurnOf(p, attempt, c, rep).rows[i]);
  }

  // ---- What the turns leave together ----

  lemma {:induction false} Grows(p: Plan, attempt: Key -> Got, t: nat, u: nat)
    requires p.cases != [] && t <= u
    ensures RunTo(p, attempt, t).rows <= RunTo(p, attempt, u).rows
    ensures RunTo(p, attempt, u).stop.None? ==> RunTo(p, attempt, t).stop.None?
    decreases u
  {
    hide TurnOf, CaseAt, RepAt;
    if t < u { Grows(p, attempt, t, u - 1); }
  }

  /** Every row comes from a turn that was reached. */
  lemma {:induction false} Origin(p: Plan, attempt: Key -> Got, t: nat, i: nat) returns (u: nat)
    requires p.cases != [] && i < |RunTo(p, attempt, t).rows|
    ensures u < t && RunTo(p, attempt, u).stop.None?
    ensures RunTo(p, attempt, t).rows[i] in TurnOf(p, attempt, CaseAt(p, u), RepAt(p, u)).rows
    ensures RunTo(p, attempt, t).rows[i].key.case_ == CaseAt(p, u).id && RunTo(p, attempt, t).rows[i].key.rep == RepAt(p, u)
  {
    hide TurnOf, CaseAt, RepAt;
    if i < |RunTo(p, attempt, t - 1).rows| {
      Grows(p, attempt, t - 1, t);
      u := Origin(p, attempt, t - 1, i);
    } else {
      u := t - 1;
      TurnKeys(p, attempt, CaseAt(p, u), RepAt(p, u));
    }
  }

  lemma SameTurn(p: Plan, t: nat, u: nat)
    requires Sound(p) && CaseAt(p, t).id == CaseAt(p, u).id && RepAt(p, t) == RepAt(p, u)
    ensures t == u
  {
    assert t % |p.cases| == u % |p.cases|;
  }

  lemma TurnOfCase(p: Plan, c: Case, rep: nat) returns (t: nat)
    requires c in p.cases
    ensures CaseAt(p, t) == c && RepAt(p, t) == rep
    ensures rep <= p.reps ==> t < AllTurns(p)
    ensures rep == 0 ==> t < |p.cases|
  {
    var i :| 0 <= i < |p.cases| && p.cases[i] == c;
    TurnNumber(p, rep, i);
    t := rep * |p.cases| + i;
  }

  /** A turn that was passed before turn `t` has a good row for every engine. */
  lemma PassedGood(p: Plan, attempt: Key -> Got, u: nat, t: nat, e: Engine)
    requires p.cases != [] && u < t && RunTo(p, attempt, u + 1).stop.None? && e in Engines(CaseAt(p, u))
    ensures HasGood(RunTo(p, attempt, t).rows, Key(CaseAt(p, u).id, e, RepAt(p, u)))
  {
    hide TurnOf, CaseAt, RepAt, Engines, RunTo;
    Grows(p, attempt, u, u + 1);
    NextTurn(p, attempt, u);
    Grows(p, attempt, u + 1, t);
    var c, rep := CaseAt(p, u), RepAt(p, u);
    PassedTurnGood(p, attempt, c, rep, e);
    var i :| 0 <= i < |TurnOf(p, attempt, c, rep).rows| && TurnOf(p, attempt, c, rep).rows[i].key == Key(c.id, e, rep)
      && Good(TurnOf(p, attempt, c, rep).rows[i]);
    assert RunTo(p, attempt, t).rows[|RunTo(p, attempt, u).rows| + i] == TurnOf(p, attempt, c, rep).rows[i];
  }

  /** Good timed rows for every engine come from a turn that was passed. */
  lemma GoodPassed(p: Plan, attempt: Key -> Got, t: nat, c: Case, rep: nat) returns (u: nat)
    requires Sound(p) && c in p.cases && rep > 0
    requires forall e :: e in Engines(c) ==> HasGood(RunTo(p, attempt, t).rows, Key(c.id, e, rep))
    ensures u < t && RunTo(p, attempt, u + 1).stop.None? && CaseAt(p, u) == c && RepAt(p, u) == rep
  {
    hide TurnOf, CaseAt, RepAt, Engines, RunTo, HasGood;
    u := TurnOfCase(p, c, rep);
    forall e | e in Engines(c)
      ensures HasGood(TurnOf(p, attempt, c, rep).rows, Key(c.id, e, rep)) && u < t && RunTo(p, attempt, u).stop.None?
    {
      GoodFrom(p, attempt, t, u, Key(c.id, e, rep));
    }
    assert Candidate in Engines(c) by { EnginesHave(c); }
    if TurnOf(p, attempt, c, rep).stop.Some? { var e := StoppedLacks(p, attempt, c, rep); }
    NextTurn(p, attempt, u);
  }

  lemma EnginesHave(c: Case)
    ensures Candidate in Engines(c) && (Base in Engines(c) <==> c.paired)
  {
  }

  lemma GoodFrom(p: Plan, attempt: Key -> Got, t: nat, u: nat, k: Key)
    requires Sound(p) && k.case_ == CaseAt(p, u).id && k.rep == RepAt(p, u) && HasGood(RunTo(p, attempt, t).rows, k)
    ensures u < t && RunTo(p, attempt, u).stop.None?
    ensures HasGood(TurnOf(p, attempt, CaseAt(p, u), RepAt(p, u)).rows, k)
  {
    hide TurnOf, CaseAt, RepAt, RunTo;
    var i :| 0 <= i < |RunTo(p, attempt, t).rows| && RunTo(p, attempt, t).rows[i].key == k && Good(RunTo(p, attempt, t).rows[i]);
    var v := Origin(p, attempt, t, i);
    SameTurn(p, u, v);
  }

  /** No execution is recorded twice. */
  lemma {:induction false} KeysOnce(p: Plan, attempt: Key -> Got, t: nat, i: nat, j: nat)
    requires Sound(p) && i < j < |RunTo(p, attempt, t).rows|
    ensures RunTo(p, attempt, t).rows[i].key != RunTo(p, attempt, t).rows[j].key
  {
    hide TurnOf, CaseAt, RepAt;
    var m := |RunTo(p, attempt, t - 1).rows|;
    Grows(p, attempt, t - 1, t);
    if j < m {
      KeysOnce(p, attempt, t - 1, i, j);
    } else {
      TurnKeys(p, attempt, CaseAt(p, t - 1), RepAt(p, t - 1));
      if i < m && RunTo(p, attempt, t).rows[i].key == RunTo(p, attempt, t).rows[j].key {
        var u := Origin(p, attempt, t - 1, i);
        SameTurn(p, u, t - 1);
      }
    }
  }

  /** Every first answer of every build was recorded and checked before the first timed sample. */
  lemma {:induction false} FirstAnswersFirst(p: Plan, attempt: Key -> Got, t: nat, i: nat, c: Case, e: Engine)
    requires Sound(p) && i < |RunTo(p, attempt, t).rows| && RunTo(p, attempt, t).rows[i].key.rep > 0
    requires c in p.cases && e in Engines(c)
    ensures RunTo(p, attempt, |p.cases|).stop.None?
    ensures HasGood(RunTo(p, attempt, t).rows[..i], Key(c.id, e, 0))
    ensures Clean(p, attempt, c, 0)
  {
    hide TurnOf, CaseAt, RepAt, RunTo, Clean, HasGood, Engines;
    var n := |p.cases|;
    var u := Origin(p, attempt, t, i);
    HotTurnLater(p, u);
    Grows(p, attempt, n, u);
    var v := TurnOfCase(p, c, 0);
    Grows(p, attempt, v + 1, n);
    Grows(p, attempt, v, v + 1);
    NextTurn(p, attempt, v);
    TurnPassesIffClean(p, attempt, c, 0);
    PassedGood(p, attempt, v, n, e);
    FirstPart(p, attempt, t, i, Key(c.id, e, 0));
  }

  lemma HotTurnLater(p: Plan, u: nat)
    requires p.cases != [] && RepAt(p, u) > 0
    ensures u >= |p.cases|
  {
  }

  /** A good row of the first pass stands before any timed row. */
  lemma FirstPart(p: Plan, attempt: Key -> Got, t: nat, i: nat, k: Key)
    requires Sound(p) && i < |RunTo(p, attempt, t).rows| && RunTo(p, attempt, t).rows[i].key.rep > 0
    requires HasGood(RunTo(p, attempt, |p.cases|).rows, k)
    ensures HasGood(RunTo(p, attempt, t).rows[..i], k)
  {
    hide TurnOf, CaseAt, RepAt, RunTo;
    var n := |p.cases|;
    var u := Origin(p, attempt, t, i);
    HotTurnLater(p, u);
    Grows(p, attempt, n, t);
    var first := RunTo(p, attempt, n).rows;
    if i < |first| {
      assert first[i] == RunTo(p, attempt, t).rows[i];
      var v := Origin(p, attempt, n, i);
      HotTurnLater(p, v);
    }
    var j :| 0 <= j < |first| && first[j].key == k && Good(first[j]);
    assert RunTo(p, attempt, t).rows[..i][j] == first[j];
  }

  /** Whatever stopped the run, a selected sample was compared with its partner and with its first answer. */
  lemma SelectedWereChecked(p: Plan, attempt: Key -> Got, t: nat, c: Case, r: Row, hashed: bool)
    requires Sound(p) && c in p.cases && r in RunTo(p, attempt, t).rows && r.key.case_ == c.id
    requires Selected(c, RunTo(p, attempt, t).rows, hashed, r)
    ensures Clean(p, attempt, c, 0) && Clean(p, attempt, c, r.key.rep)
    ensures r.got == attempt(r.key) && Repeats(r, attempt)
  {
    var rows, rep := RunTo(p, attempt, t).rows, r.key.rep;
    hide TurnOf, CaseAt, RepAt, RunTo, HasGood, Engines, Clean;
    EnginesHave(c);
    forall e | e in Engines(c) ensures HasGood(rows, Key(c.id, e, rep)) {
      assert r.key.(engine := e) == Key(c.id, e, rep);
    }
    var u := GoodPassed(p, attempt, t, c, rep);
    Grows(p, attempt, u, u + 1);
    NextTurn(p, attempt, u);
    TurnPassesIffClean(p, attempt, c, rep);
    var i :| 0 <= i < |rows| && rows[i] == r;
    FirstAnswersFirst(p, attempt, t, i, c, Candidate);
    var v := Origin(p, attempt, t, i);
    SameTurn(p, u, v);
    TurnKeys(p, attempt, c, rep);
    CleanRepeats(p, attempt, c, rep, r.key.engine);
  }

  lemma CleanRepeats(p: Plan, attempt: Key -> Got, c: Case, rep: nat, e: Engine)
    requires Clean(p, attempt, c, rep) && rep > 0 && e in Engines(c)
    ensures attempt(Key(c.id, e, 0)).Done? && attempt(Key(c.id, e, rep)).Done?
    ensures attempt(Key(c.id, e, 0)).id == attempt(Key(c.id, e, rep)).id
  {
  }

  // ---- How many samples count ----

  /** Every engine has a good timed row of this repetition. */
  predicate Paired(c: Case, rows: seq<Row>, hashed: bool, rep: nat) {
    hashed && rep > 0 && forall e :: e in Engines(c) ==> HasGood(rows, Key(c.id, e, rep))
  }

  function PairedReps(c: Case, rows: seq<Row>, hashed: bool, reps: nat): nat {
    if reps == 0 then 0 else PairedReps(c, rows, hashed, reps - 1) + if Paired(c, rows, hashed, reps) then 1 else 0
  }

  /** How many of the samples are of repetition `rep`. */
  function CountRep(samples: seq<Row>, rep: nat): nat {
    if samples == [] then 0 else CountRep(samples[..|samples| - 1], rep) + if samples[|samples| - 1].key.rep == rep then 1 else 0
  }

  function CountUpTo(samples: seq<Row>, reps: nat): nat {
    if samples == [] then 0
    else CountUpTo(samples[..|samples| - 1], reps) + if 1 <= samples[|samples| - 1].key.rep <= reps then 1 else 0
  }

  ghost predicate Distinct(rows: seq<Row>) {
    forall i, j :: 0 <= i < j < |rows| ==> rows[i].key != rows[j].key
  }

  lemma SelectedIffPaired(c: Case, rows: seq<Row>, hashed: bool, r: Row)
    requires r.key.case_ == c.id && r.key.engine in Engines(c)
    ensures Selected(c, rows, hashed, r) <==> Paired(c, rows, hashed, r.key.rep) && Good(r)
  {
    hide Engines, HasGood;
    forall e ensures r.key.(engine := e) == Key(c.id, e, r.key.rep) {}
  }

  lemma {:induction false} SamplesOfRep(c: Case, e: Engine, rows: seq<Row>, hashed: bool, some: seq<Row>, rep: nat)
    requires Distinct(some) && e in Engines(c)
    ensures CountRep(Samples(c, e, rows, hashed, some), rep)
         == if Paired(c, rows, hashed, rep) && HasGood(some, Key(c.id, e, rep)) then 1 else 0
  {
    hide Selected, Paired, Engines;
    if some != [] {
      var front, r, k := some[..|some| - 1], some[|some| - 1], Key(c.id, e, rep);
      SamplesOfRep(c, e, rows, hashed, front, rep);
      if r.key.case_ == c.id && r.key.engine == e { SelectedIffPaired(c, rows, hashed, r); }
      var s := Samples(c, e, rows, hashed, front);
      assert (s + [r])[..|s|] == s && s + [] == s;
      HasGoodMore(front, r, k);
      assert front + [r] == some;
      if HasGood(front, k) {
        var i :| 0 <= i < |front| && front[i].key == k && Good(front[i]);
        assert some[i].key != r.key;
      }
    }
  }

  lemma HasGoodMore(rows: seq<Row>, r: Row, k: Key)
    ensures HasGood(rows + [r], k) <==> HasGood(rows, k) || (r.key == k && Good(r))
  {
    var more := rows + [r];
    if HasGood(rows, k) {
      var i :| 0 <= i < |rows| && rows[i].key == k && Good(rows[i]);
      assert more[i] == rows[i];
    }
    if r.key == k && Good(r) { assert more[|rows|] == r; }
  }

  lemma {:induction false} CountUpToMore(samples: seq<Row>, reps: nat)
    ensures CountUpTo(samples, reps + 1) == CountUpTo(samples, reps) + CountRep(samples, reps + 1)
    ensures CountUpTo(samples, 0) == 0
  {
    if samples != [] { CountUpToMore(samples[..|samples| - 1], reps); }
  }

  lemma {:induction false} CountAll(samples: seq<Row>, reps: nat)
    requires forall i :: 0 <= i < |samples| ==> 1 <= samples[i].key.rep <= reps
    ensures CountUpTo(samples, reps) == |samples|
  {
    if samples != [] { CountAll(samples[..|samples| - 1], reps); }
  }

  lemma {:induction false} SamplesUpTo(c: Case, e: Engine, rows: seq<Row>, hashed: bool, reps: nat)
    requires Distinct(rows) && e in Engines(c)
    ensures CountUpTo(Samples(c, e, rows, hashed, rows), reps) == PairedReps(c, rows, hashed, reps)
  {
    hide Samples, Distinct, Engines, HasGood;
    var samples := Samples(c, e, rows, hashed, rows);
    if reps == 0 { CountUpToMore(samples, 0); }
    else {
      SamplesUpTo(c, e, rows, hashed, reps - 1);
      CountUpToMore(samples, reps - 1);
      SamplesOfRep(c, e, rows, hashed, rows, reps);
    }
  }

  lemma {:induction false} SamplesAre(c: Case, e: Engine, rows: seq<Row>, hashed: bool, some: seq<Row>, r: Row)
    ensures r in Samples(c, e, rows, hashed, some)
      <==> r in some && r.key.case_ == c.id && r.key.engine == e && Selected(c, rows, hashed, r)
  {
    hide Selected;
    if some != [] { SamplesAre(c, e, rows, hashed, some[..|some| - 1], r); }
  }

  /** As many samples of a build count as repetitions are paired. */
  lemma SamplesArePairedReps(c: Case, e: Engine, rows: seq<Row>, hashed: bool, reps: nat)
    requires Distinct(rows) && e in Engines(c) && forall i :: 0 <= i < |rows| ==> rows[i].key.rep <= reps
    ensures |Samples(c, e, rows, hashed, rows)| == PairedReps(c, rows, hashed, reps)
  {
    hide Samples, Distinct, Engines, HasGood;
    var samples := Samples(c, e, rows, hashed, rows);
    forall i | 0 <= i < |samples| ensures 1 <= samples[i].key.rep <= reps {
      SamplesAre(c, e, rows, hashed, rows, samples[i]);
    }
    CountAll(samples, reps);
    SamplesUpTo(c, e, rows, hashed, reps);
  }

  predicate HasSample(c: Case, e: Engine, rows: seq<Row>, hashed: bool, rep: nat) {
    exists r :: r in Samples(c, e, rows, hashed, rows) && r.key.rep == rep
  }

  lemma SampleIffPaired(c: Case, e: Engine, rows: seq<Row>, hashed: bool, rep: nat)
    requires e in Engines(c)
    ensures HasSample(c, e, rows, hashed, rep) <==> Paired(c, rows, hashed, rep)
  {
    hide Samples, Selected, Engines;
    if HasSample(c, e, rows, hashed, rep) {
      var r :| r in Samples(c, e, rows, hashed, rows) && r.key.rep == rep;
      SamplesAre(c, e, rows, hashed, rows, r);
      SelectedIffPaired(c, rows, hashed, r);
    }
    if Paired(c, rows, hashed, rep) {
      assert HasGood(rows, Key(c.id, e, rep));
      var i :| 0 <= i < |rows| && rows[i].key == Key(c.id, e, rep) && Good(rows[i]);
      SelectedIffPaired(c, rows, hashed, rows[i]);
      SamplesAre(c, e, rows, hashed, rows, rows[i]);
    }
  }

  /** Wherever the run stops, both builds have samples of the same repetitions, and equally many. */
  lemma BothBuildsAlike(p: Plan, attempt: Key -> Got, t: nat, c: Case, hashed: bool)
    requires Sound(p) && t <= AllTurns(p) && c.paired
    ensures var rows := RunTo(p, attempt, t).rows;
      && |Samples(c, Candidate, rows, hashed, rows)| == |Samples(c, Base, rows, hashed, rows)|
      && forall rep :: HasSample(c, Candidate, rows, hashed, rep) <==> HasSample(c, Base, rows, hashed, rep)
  {
    hide RunTo, Samples, Paired, HasSample;
    var rows := RunTo(p, attempt, t).rows;
    RunRows(p, attempt, t);
    SamplesArePairedReps(c, Candidate, rows, hashed, p.reps);
    SamplesArePairedReps(c, Base, rows, hashed, p.reps);
    forall rep ensures HasSample(c, Candidate, rows, hashed, rep) <==> HasSample(c, Base, rows, hashed, rep) {
      SampleIffPaired(c, Candidate, rows, hashed, rep);
      SampleIffPaired(c, Base, rows, hashed, rep);
    }
  }

  lemma RunRows(p: Plan, attempt: Key -> Got, t: nat)
    requires Sound(p) && t <= AllTurns(p)
    ensures Distinct(RunTo(p, attempt, t).rows)
    ensures forall i :: 0 <= i < |RunTo(p, attempt, t).rows| ==> RunTo(p, attempt, t).rows[i].key.rep <= p.reps
  {
    hide RunTo, TurnOf, CaseAt, RepAt, AllTurns;
    var rows := RunTo(p, attempt, t).rows;
    forall i, j | 0 <= i < j < |rows| ensures rows[i].key != rows[j].key { KeysOnce(p, attempt, t, i, j); }
    forall i | 0 <= i < |rows| ensures rows[i].key.rep <= p.reps {
      var u := Origin(p, attempt, t, i);
      RepInPlan(p, u);
    }
  }

  lemma RepInPlan(p: Plan, u: nat)
    requires p.cases != [] && u < AllTurns(p)
    ensures RepAt(p, u) <= p.reps
  {
    var n := |p.cases|;
    var d: int := RepAt(p, u) - (p.reps + 1);
    assert d * n == u - u % n - AllTurns(p);
    if d >= 0 { NotNegative(d, n); }
  }

  lemma NotNegative(a: nat, b: nat)
    ensures a * b >= 0
  {
  }

  // ---- The exit code ----

  ghost predicate AllClean(p: Plan, attempt: Key -> Got) {
    forall c, rep :: c in p.cases && 0 <= rep <= p.reps ==> Clean(p, attempt, c, rep)
  }

  lemma {:induction false} RunPassesIffClean(p: Plan, attempt: Key -> Got, t: nat)
    requires p.cases != []
    ensures RunTo(p, attempt, t).stop.None? <==> forall u :: 0 <= u < t ==> Clean(p, attempt, CaseAt(p, u), RepAt(p, u))
  {
    hide TurnOf, CaseAt, RepAt, Clean;
    if t > 0 {
      RunPassesIffClean(p, attempt, t - 1);
      TurnPassesIffClean(p, attempt, CaseAt(p, t - 1), RepAt(p, t - 1));
    }
  }

  /** The turns end well exactly when every answer of the plan is clean. */
  lemma AllPassIffClean(p: Plan, attempt: Key -> Got)
    requires Sound(p)
    ensures RunTo(p, attempt, AllTurns(p)).stop.None? <==> AllClean(p, attempt)
  {
    hide RunTo, CaseAt, RepAt, Clean, AllTurns;
    RunPassesIffClean(p, attempt, AllTurns(p));
    if RunTo(p, attempt, AllTurns(p)).stop.None? {
      forall c, rep | c in p.cases && 0 <= rep <= p.reps ensures Clean(p, attempt, c, rep) {
        var u := TurnOfCase(p, c, rep);
      }
    }
    if AllClean(p, attempt) {
      forall u | 0 <= u < AllTurns(p) ensures Clean(p, attempt, CaseAt(p, u), RepAt(p, u)) {
        RepInPlan(p, u);
        CaseInPlan(p, u);
      }
    }
  }

  lemma CaseInPlan(p: Plan, u: nat)
    requires p.cases != []
    ensures CaseAt(p, u) in p.cases
  {
  }

  lemma {:induction false} AllPaired(c: Case, rows: seq<Row>, hashed: bool, reps: nat)
    ensures PairedReps(c, rows, hashed, reps) <= reps
    ensures PairedReps(c, rows, hashed, reps) == reps <==> forall rep :: 1 <= rep <= reps ==> Paired(c, rows, hashed, rep)
  {
    hide Paired;
    if reps > 0 { AllPaired(c, rows, hashed, reps - 1); }
  }

  /** Every planned median is there exactly when every turn was passed: a median needs all the fixed repetitions. */
  lemma CoveredIffAllPass(p: Plan, attempt: Key -> Got)
    requires Sound(p)
    ensures Covered(p, RunTo(p, attempt, AllTurns(p)).rows, RunTo(p, attempt, |p.cases|).stop.None?)
      <==> RunTo(p, attempt, AllTurns(p)).stop.None?
  {
    hide RunTo, CaseAt, RepAt, Paired, AllTurns, CaseComplete, Engines;
    var rows, hashed := RunTo(p, attempt, AllTurns(p)).rows, RunTo(p, attempt, |p.cases|).stop.None?;
    if RunTo(p, attempt, AllTurns(p)).stop.None? {
      HashTurnsFit(p);
      Grows(p, attempt, |p.cases|, AllTurns(p));
      forall c | c in p.cases ensures CaseComplete(p, rows, hashed, c) {
        forall rep | 1 <= rep <= p.reps ensures Paired(c, rows, hashed, rep) { AllPassPaired(p, attempt, c, rep); }
        CaseCompleteIff(p, attempt, c, hashed);
      }
    }
    if Covered(p, rows, hashed) {
      var c := p.cases[|p.cases| - 1];
      assert c in p.cases;
      CaseCompleteIff(p, attempt, c, hashed);
      LastPairedPasses(p, attempt, c);
    }
  }

  lemma HashTurnsFit(p: Plan)
    ensures |p.cases| <= AllTurns(p)
  {
    NotNegative(p.reps, |p.cases|);
  }

  lemma CaseCompleteIff(p: Plan, attempt: Key -> Got, c: Case, hashed: bool)
    requires Sound(p)
    ensures var rows := RunTo(p, attempt, AllTurns(p)).rows;
      CaseComplete(p, rows, hashed, c) <==> forall rep :: 1 <= rep <= p.reps ==> Paired(c, rows, hashed, rep)
  {
    hide RunTo, Samples, Paired, Engines, AllTurns, Distinct;
    var rows := RunTo(p, attempt, AllTurns(p)).rows;
    RunRows(p, attempt, AllTurns(p));
    AllPaired(c, rows, hashed, p.reps);
    EnginesHave(c);
    forall e | e in Engines(c) ensures |Samples(c, e, rows, hashed, rows)| == PairedReps(c, rows, hashed, p.reps) {
      SamplesArePairedReps(c, e, rows, hashed, p.reps);
    }
  }

  lemma AllPassPaired(p: Plan, attempt: Key -> Got, c: Case, rep: nat)
    requires Sound(p) && c in p.cases && 1 <= rep <= p.reps && RunTo(p, attempt, AllTurns(p)).stop.None?
    ensures Paired(c, RunTo(p, attempt, AllTurns(p)).rows, true, rep)
  {
    hide RunTo, CaseAt, RepAt, Engines, AllTurns, HasGood;
    var u := TurnOfCase(p, c, rep);
    Grows(p, attempt, u + 1, AllTurns(p));
    forall e | e in Engines(c) ensures HasGood(RunTo(p, attempt, AllTurns(p)).rows, Key(c.id, e, rep)) {
      PassedGood(p, attempt, u, AllTurns(p), e);
    }
  }

  /** When the last repetition of the last case is paired, every turn was passed. */
  lemma LastPairedPasses(p: Plan, attempt: Key -> Got, c: Case)
    requires Sound(p) && c == p.cases[|p.cases| - 1]
    requires Paired(c, RunTo(p, attempt, AllTurns(p)).rows, RunTo(p, attempt, |p.cases|).stop.None?, p.reps)
    ensures RunTo(p, attempt, AllTurns(p)).stop.None?
  {
    hide RunTo, CaseAt, RepAt, Engines, HasGood;
    var u := GoodPassed(p, attempt, AllTurns(p), c, p.reps);
    TurnNumber(p, p.reps, |p.cases| - 1);
    SameTurn(p, u, p.reps * |p.cases| + (|p.cases| - 1));
  }

  /** What the worker's exit code is 0 for: nothing stopped it, every answer is clean, and no build got slower than allowed. */
  ghost predicate Passes(p: Plan, attempt: Key -> Got, setup: Option<Stop>, rivals: Option<Stop>)
    requires Sound(p)
  {
    && setup.None? && rivals.None? && AllClean(p, attempt)
    && forall c :: c in p.cases ==> !Flagged(p, RunTo(p, attempt, AllTurns(p)).rows, true, c)
  }

  lemma PassedIff(p: Plan, attempt: Key -> Got, setup: Option<Stop>, rivals: Option<Stop>)
    requires Sound(p)
    ensures var turns := if setup.Some? then Turned([], setup) else RunTo(p, attempt, AllTurns(p));
      ExitCode(p, turns.rows, setup.None? && RunTo(p, attempt, |p.cases|).stop.None?,
               if turns.stop.Some? then turns.stop else rivals) == 0
      <==> Passes(p, attempt, setup, rivals)
  {
    hide RunTo, AllClean, Flagged, Covered, AllTurns;
    AllPassIffClean(p, attempt);
    CoveredIffAllPass(p, attempt);
    HashTurnsFit(p);
    Grows(p, attempt, |p.cases|, AllTurns(p));
  }

  // ---- Times decide nothing but the ratio ----

  function Untimed(g: Got): Got { if g.Done? then g.(wall := 0) else g }

  predicate RowsAlike(x: seq<Row>, y: seq<Row>) {
    |x| == |y| && forall i :: 0 <= i < |x| ==>
      x[i].key == y[i].key && x[i].incorrect == y[i].incorrect && Untimed(x[i].got) == Untimed(y[i].got)
  }

  ghost predicate AlikeButForTimes(a: Key -> Got, b: Key -> Got) {
    forall k :: Untimed(a(k)) == Untimed(b(k))
  }

  lemma {:induction false} TriedAlike(keys: seq<Key>, a: Key -> Got, b: Key -> Got)
    requires AlikeButForTimes(a, b)
    ensures RowsAlike(Tried(keys, a), Tried(keys, b)) && WasCut(Tried(keys, a)) == WasCut(Tried(keys, b))
  {
    if keys != [] { TriedAlike(keys[..|keys| - 1], a, b); }
  }

  lemma {:induction false} IdentitiesAlike(x: seq<Row>, y: seq<Row>)
    requires RowsAlike(x, y) && AllDone(x)
    ensures AllDone(y) && Identities(x) == Identities(y)
  {
    forall i | 0 <= i < |y| ensures y[i].got.Done? { assert x[i].got.Done?; }
    if x != [] {
      IdentitiesAlike(x[..|x| - 1], y[..|y| - 1]);
      assert x[|x| - 1].key == y[|y| - 1].key;
    }
  }

  lemma {:induction false} FirstChangedAlike(x: seq<Row>, y: seq<Row>, a: Key -> Got, b: Key -> Got)
    requires RowsAlike(x, y) && AlikeButForTimes(a, b)
    ensures FirstChanged(x, a) == FirstChanged(y, b)
  {
    if x != [] {
      assert x[0].key == y[0].key && Untimed(a(FirstKey(x[0].key))) == Untimed(b(FirstKey(y[0].key)));
      FirstChangedAlike(x[1..], y[1..], a, b);
    }
  }

  lemma PairAlike(c: Case, x: seq<Row>, y: seq<Row>)
    requires RowsAlike(x, y) && AllDone(x) && AllDone(y)
    ensures PairAgrees(c, x) == PairAgrees(c, y)
  {
    if |x| == 2 {
      assert Untimed(x[0].got) == Untimed(y[0].got) && Untimed(x[1].got) == Untimed(y[1].got);
    }
  }

  lemma TurnAlike(p: Plan, a: Key -> Got, b: Key -> Got, c: Case, rep: nat)
    requires AlikeButForTimes(a, b)
    ensures RowsAlike(TurnOf(p, a, c, rep).rows, TurnOf(p, b, c, rep).rows)
    ensures TurnOf(p, a, c, rep).stop == TurnOf(p, b, c, rep).stop
  {
    hide Order, Tried, Identities, FirstChanged, PairAgrees;
    var x, y := Tried(Order(c, rep), a), Tried(Order(c, rep), b);
    TriedAlike(Order(c, rep), a, b);
    if WasCut(x) {
      assert x[|x| - 1].key == y[|y| - 1].key;
    } else {
      IdentitiesAlike(x, y);
      PairAlike(c, x, y);
      FirstChangedAlike(x, y, a, b);
    }
  }

  /** Sampling ends on the fixed target or for a reason that no measured time plays a part in, and leaves the same rows. */
  lemma {:induction false} TimesDecideNoStop(p: Plan, a: Key -> Got, b: Key -> Got, t: nat)
    requires p.cases != [] && AlikeButForTimes(a, b)
    ensures RowsAlike(RunTo(p, a, t).rows, RunTo(p, b, t).rows) && RunTo(p, a, t).stop == RunTo(p, b, t).stop
  {
    hide TurnOf, CaseAt, RepAt;
    if t > 0 {
      TimesDecideNoStop(p, a, b, t - 1);
      TurnAlike(p, a, b, CaseAt(p, t - 1), RepAt(p, t - 1));
    }
  }

  /** Nor does a time decide which samples count: never the fastest. */
  lemma TimesSelectNothing(c: Case, x: seq<Row>, y: seq<Row>, hashed: bool, i: nat)
    requires RowsAlike(x, y) && i < |x|
    ensures Selected(c, x, hashed, x[i]) == Selected(c, y, hashed, y[i])
  {
    forall k ensures HasGood(x, k) == HasGood(y, k) {
      if HasGood(x, k) {
        var j :| 0 <= j < |x| && x[j].key == k && Good(x[j]);
        assert y[j].key == k && Good(y[j]);
      }
      if HasGood(y, k) {
        var j :| 0 <= j < |y| && y[j].key == k && Good(y[j]);
        assert x[j].key == k && Good(x[j]);
      }
    }
  }
}
