/** Several closes of one reader: the test of whether it is still open and the update that closes it are two steps. */
module ReaderClosing {

  /** Where one call of `close` stands. `Turned` found the reader closed already. */
  datatype Closer = Before | Passed | Cleared | Released | Dropped | Turned

  /** Whether the reader counts as open, the context's in-flight count, the releases of its stream, and the closes. */
  datatype State = State(open: bool, inflight: int, releases: nat, closers: seq<Closer>)

  datatype Act = Test | Clear | Release | Drop

  datatype Move = Move(closer: nat, act: Act)

  function Start(closers: nat, inflight: int): State {
    State(true, inflight, 0, seq(closers, _ => Before))
  }

  /** One step of one close; a step that is not its turn changes nothing. */
  function Next(s: State, m: Move): State {
    if m.closer >= |s.closers| then s
    else
      var c := m.closer;
      match (s.closers[c], m.act)
      case (Before, Test) => s.(closers := s.closers[c := if s.open then Passed else Turned])
      case (Passed, Clear) => s.(open := false, closers := s.closers[c := Cleared])
      case (Cleared, Release) => s.(releases := s.releases + 1, closers := s.closers[c := Released])
      case (Released, Drop) => s.(inflight := s.inflight - 1, closers := s.closers[c := Dropped])
      case _ => s
  }

  function Run(s: State, moves: seq<Move>): State {
    if moves == [] then s else Next(Run(s, moves[..|moves| - 1]), moves[|moves| - 1])
  }

  // ---- Overlapping closes ----

  /** This move tests an open reader while another close is between its own test and its update. */
  predicate OverlapsNow(s: State, m: Move) {
    && m.act == Test && m.closer < |s.closers| && s.closers[m.closer] == Before && s.open
    && exists a :: 0 <= a < |s.closers| && s.closers[a] == Passed
  }

  predicate Overlaps(s: State, moves: seq<Move>) {
    exists i :: 0 <= i < |moves| && OverlapsNow(Run(s, moves[..i]), moves[i])
  }

  /** Found the reader open: will close it. */
  predicate Closes(c: Closer) { c != Before && c != Turned }

  predicate HasReleased(c: Closer) { c == Released || c == Dropped }

  predicate HasDropped(c: Closer) { c == Dropped }

  function Count(closers: seq<Closer>, p: Closer -> bool): nat {
    if closers == [] then 0
    else Count(closers[..|closers| - 1], p) + if p(closers[|closers| - 1]) then 1 else 0
  }

  function Bit(b: bool): nat { if b then 1 else 0 }

  lemma {:induction false} CountUpdate(closers: seq<Closer>, c: nat, x: Closer, p: Closer -> bool)
    requires c < |closers|
    ensures Count(closers[c := x], p) == Count(closers, p) - Bit(p(closers[c])) + Bit(p(x))
  {
    var front := closers[..|closers| - 1];
    if c == |closers| - 1 {
      assert closers[c := x][..|closers| - 1] == front;
    } else {
      CountUpdate(front, c, x, p);
      assert closers[c := x][..|closers| - 1] == front[c := x];
    }
  }

  lemma {:induction false} CountNone(closers: seq<Closer>, p: Closer -> bool)
    ensures Count(closers, p) == 0 <==> forall c :: 0 <= c < |closers| ==> !p(closers[c])
  {
    if closers != [] { CountNone(closers[..|closers| - 1], p); }
  }

  lemma {:induction false} CountSame(closers: seq<Closer>, p: Closer -> bool, q: Closer -> bool)
    requires forall c :: 0 <= c < |closers| ==> p(closers[c]) == q(closers[c])
    ensures Count(closers, p) == Count(closers, q)
  {
    if closers != [] { CountSame(closers[..|closers| - 1], p, q); }
  }

  /** The count and the releases are exact, and an open reader has been cleared by no close. */
  predicate Inv(s: State, inflight: int) {
    && s.inflight == inflight - Count(s.closers, HasDropped)
    && s.releases == Count(s.closers, HasReleased)
    && (s.open ==> forall c :: 0 <= c < |s.closers| && Closes(s.closers[c]) ==> s.closers[c] == Passed)
    && (!s.open ==> Count(s.closers, Closes) >= 1)
  }

  lemma StepCounts(s: State, m: Move)
    requires m.closer < |s.closers|
    ensures var c, t := m.closer, Next(s, m);
      && Count(t.closers, HasDropped) == Count(s.closers, HasDropped) - Bit(HasDropped(s.closers[c])) + Bit(HasDropped(t.closers[c]))
      && Count(t.closers, HasReleased) == Count(s.closers, HasReleased) - Bit(HasReleased(s.closers[c])) + Bit(HasReleased(t.closers[c]))
      && Count(t.closers, Closes) == Count(s.closers, Closes) - Bit(Closes(s.closers[c])) + Bit(Closes(t.closers[c]))
  {
    hide Count;
    var c, t := m.closer, Next(s, m);
    assert t.closers == s.closers[c := t.closers[c]];
    CountUpdate(s.closers, c, t.closers[c], HasDropped);
    CountUpdate(s.closers, c, t.closers[c], HasReleased);
    CountUpdate(s.closers, c, t.closers[c], Closes);
  }

  /** One step: how many will close it grows exactly by a test of an open reader, and then past one exactly by an overlap. */
  lemma StepKeeps(s: State, m: Move, inflight: int)
    requires Inv(s, inflight)
    ensures Inv(Next(s, m), inflight)
    ensures Count(Next(s, m).closers, Closes) >= 2 <==> Count(s.closers, Closes) >= 2 || OverlapsNow(s, m)
  {
    hide Count;
    if m.closer < |s.closers| {
      StepCounts(s, m);
      CountNone(s.closers, Closes);
    }
  }

  lemma StartKeeps(closers: nat, inflight: int)
    ensures Inv(Start(closers, inflight), inflight) && Count(Start(closers, inflight).closers, Closes) == 0
  {
    hide Count;
    CountNone(Start(closers, inflight).closers, HasDropped);
    CountNone(Start(closers, inflight).closers, HasReleased);
    CountNone(Start(closers, inflight).closers, Closes);
  }

  lemma OverlapsUnfold(s: State, moves: seq<Move>)
    requires moves != []
    ensures var front := moves[..|moves| - 1];
      Overlaps(s, moves) <==> Overlaps(s, front) || OverlapsNow(Run(s, front), moves[|moves| - 1])
  {
    hide OverlapsNow, Run;
    var front := moves[..|moves| - 1];
    forall i | 0 <= i < |front| ensures moves[..i] == front[..i] && moves[i] == front[i] {}
    if Overlaps(s, front) {
      var i :| 0 <= i < |front| && OverlapsNow(Run(s, front[..i]), front[i]);
      assert OverlapsNow(Run(s, moves[..i]), moves[i]);
    }
    if OverlapsNow(Run(s, front), moves[|moves| - 1]) { assert OverlapsNow(Run(s, moves[..|front|]), moves[|front|]); }
  }

  lemma {:induction false} EveryRun(closers: nat, inflight: int, moves: seq<Move>)
    ensures var s := Run(Start(closers, inflight), moves);
      Inv(s, inflight) && (Count(s.closers, Closes) >= 2 <==> Overlaps(Start(closers, inflight), moves))
  {
    hide Count, Inv, Next, OverlapsNow, Start;
    if moves == [] {
      StartKeeps(closers, inflight);
    } else {
      var front, last := moves[..|moves| - 1], moves[|moves| - 1];
      EveryRun(closers, inflight, front);
      StepKeeps(Run(Start(closers, inflight), front), last, inflight);
      OverlapsUnfold(Start(closers, inflight), moves);
    }
  }

  /** Every close that began has ended. */
  predicate Settled(s: State) {
    forall c :: 0 <= c < |s.closers| ==> s.closers[c] == Before || s.closers[c] == Dropped || s.closers[c] == Turned
  }

  /** Any number of closes, in any order: the stream is released at most once, and the count drops at most by one, exactly
      when no close tests the reader between the test and the update of another. */
  lemma ClosedOnceIff(closers: nat, inflight: int, moves: seq<Move>)
    requires Settled(Run(Start(closers, inflight), moves))
    ensures var s := Run(Start(closers, inflight), moves);
      && (s.releases <= 1 <==> !Overlaps(Start(closers, inflight), moves))
      && (inflight - s.inflight <= 1 <==> !Overlaps(Start(closers, inflight), moves))
  {
    hide Count, Run, Start, Overlaps;
    EveryRun(closers, inflight, moves);
    var s := Run(Start(closers, inflight), moves);
    CountSame(s.closers, HasDropped, Closes);
    CountSame(s.closers, HasReleased, Closes);
  }

  /** Two closes that overlap: the stream is released twice, and with another call still counted nothing is left in flight. */
  lemma DoubleClose()
    ensures var moves := [Move(0, Test), Move(1, Test), Move(0, Clear), Move(1, Clear)]
                       + [Move(0, Release), Move(1, Release), Move(0, Drop), Move(1, Drop)];
      && Run(Start(2, 2), moves) == State(false, 0, 2, [Dropped, Dropped]) && Overlaps(Start(2, 2), moves)
  {
    hide Run, Overlaps;
    var s0 := Start(2, 2);
    assert s0.closers == [Before, Before];
    var first := [Move(0, Test), Move(1, Test), Move(0, Clear), Move(1, Clear)];
    var second := [Move(0, Release), Move(1, Release), Move(0, Drop), Move(1, Drop)];
    FourMoves(s0, [], first);
    assert [] + first == first;
    var s1 := Next(Next(s0, first[0]), first[1]);
    assert s1.closers == [Passed, Passed];
    var s2 := Next(Next(s1, first[2]), first[3]);
    assert s2 == State(false, 2, 0, [Cleared, Cleared]);
    FourMoves(s0, first, second);
    var s3 := Next(Next(s2, second[0]), second[1]);
    assert s3 == State(false, 2, 2, [Released, Released]);
    var s4 := Next(Next(s3, second[2]), second[3]);
    assert s4 == State(false, 0, 2, [Dropped, Dropped]);
    ClosedOnceIff(2, 2, first + second);
  }

  lemma RunSnoc(s: State, moves: seq<Move>, m: Move)
    ensures Run(s, moves + [m]) == Next(Run(s, moves), m)
  {
    assert (moves + [m])[..|moves|] == moves;
  }

  lemma FourMoves(s: State, before: seq<Move>, ms: seq<Move>)
    requires |ms| == 4
    ensures Run(s, before + ms) == Next(Next(Next(Next(Run(s, before), ms[0]), ms[1]), ms[2]), ms[3])
    ensures Run(s, []) == s
  {
    hide Next;
    RunSnoc(s, before, ms[0]);
    RunSnoc(s, before + [ms[0]], ms[1]);
    RunSnoc(s, before + [ms[0]] + [ms[1]], ms[2]);
    RunSnoc(s, before + [ms[0]] + [ms[1]] + [ms[2]], ms[3]);
    assert before + [ms[0]] + [ms[1]] + [ms[2]] + [ms[3]] == before + ms;
  }
}
