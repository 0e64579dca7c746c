/** How a close ends: a waiting closer can always finish, and what an interrupted wait puts at risk. */
module ContextClosing {
  import opened ContextLifetime

  // ---- A waiting closer is never stuck ----

  /** Steps an actor still has to take before it leaves, if it asks for nothing more. */
  function Work(p: Phase): nat {
    match p
    case RunEntered => 3
    case RunNative => 2
    case ArrowEntered => 3
    case ArrowNative => 2
    case Importing => 3
    case Reading => 3
    case Releasing => 2
    case RunLeaving => 1
    case ArrowLeaving => 1
    case _ => 0
  }

  /** The next of those steps. */
  function Onward(p: Phase): Act
    requires Counted(p)
  {
    match p
    case RunEntered => CallRun
    case RunNative => ReturnRun
    case RunLeaving => LeaveRun
    case ArrowEntered => CallArrow
    case ArrowNative => ReturnArrow(false)
    case Importing => Import(false)
    case Reading => CloseReader
    case Releasing => ReleaseStream
    case _ => LeaveArrow
  }

  function TotalWork(actors: seq<Phase>): nat {
    if actors == [] then 0 else TotalWork(actors[..|actors| - 1]) + Work(actors[|actors| - 1])
  }

  lemma {:induction false} WorkUpdate(actors: seq<Phase>, a: nat, x: Phase)
    requires a < |actors|
    ensures TotalWork(actors[a := x]) == TotalWork(actors) - Work(actors[a]) + Work(x)
  {
    var front := actors[..|actors| - 1];
    if a == |actors| - 1 {
      assert actors[a := x][..|actors| - 1] == front;
    } else {
      WorkUpdate(front, a, x);
      assert actors[a := x][..|actors| - 1] == front[a := x];
    }
  }

  lemma {:induction false} WorkNotified(actors: seq<Phase>)
    ensures TotalWork(NotifyAll(actors)) == TotalWork(actors)
  {
    if actors != [] {
      WorkNotified(actors[..|actors| - 1]);
      assert NotifyAll(actors)[..|actors| - 1] == NotifyAll(actors[..|actors| - 1]);
    }
  }

  lemma {:induction false} SomeCounted(actors: seq<Phase>) returns (a: nat)
    requires Count(actors, Counted) > 0
    ensures a < |actors| && Counted(actors[a])
  {
    a := |actors| - 1;
    if !Counted(actors[a]) { a := SomeCounted(actors[..|actors| - 1]); }
  }

  lemma OnwardWorks(host: Host, s: State, a: nat)
    requires a < |s.actors| && Counted(s.actors[a])
    ensures var t := Next(host, s, Move(a, Onward(s.actors[a])));
            && |t.actors| == |s.actors| && TotalWork(t.actors) < TotalWork(s.actors)
            && forall b :: 0 <= b < |s.actors| && s.actors[b].Waiting? ==> t.actors[b].Waiting?
  {
    hide TotalWork;
    var p := s.actors[a];
    var t := Next(host, s, Move(a, Onward(p)));
    WorkUpdate(s.actors, a, Idle);
    WorkNotified(s.actors[a := Idle]);
    WorkUpdate(s.actors, a, t.actors[a]);
  }

  lemma RunSnoc(host: Host, s: State, moves: seq<Move>, m: Move)
    ensures Run(host, s, moves + [m]) == Next(host, Run(host, s, moves), m)
  {
    assert (moves + [m])[..|moves|] == moves;
  }

  lemma {:induction false} RunConcat(host: Host, s: State, a: seq<Move>, b: seq<Move>)
    ensures Run(host, s, a + b) == Run(host, Run(host, s, a), b)
    decreases |b|
  {
    if b == [] {
      assert a + b == a;
    } else {
      RunConcat(host, s, a, b[..|b| - 1]);
      assert (a + b)[..|a + b| - 1] == a + b[..|b| - 1];
    }
  }

  /** Callers and readers that only finish what they began leave a state with none of them, the closers still waiting. */
  lemma {:induction false} Drain(host: Host, s: State) returns (moves: seq<Move>)
    requires Inv(s)
    ensures var t := Run(host, s, moves);
            && Inv(t) && t.inflight == 0 && |t.actors| == |s.actors|
            && forall b :: 0 <= b < |s.actors| && s.actors[b].Waiting? ==> t.actors[b].Waiting?
    ensures forall m :: m in moves ==> !m.act.Interrupt?
    decreases TotalWork(s.actors)
  {
    hide TotalWork, Count, Next, Owned;
    moves := [];
    if s.inflight > 0 {
      var a := SomeCounted(s.actors);
      var m := Move(a, Onward(s.actors[a]));
      OnwardWorks(host, s, a);
      NextKeeps(host, s, m);
      var rest := Drain(host, Next(host, s, m));
      moves := [m] + rest;
      RunConcat(host, s, [m], rest);
      RunSnoc(host, s, [], m);
      assert [] + [m] == [m];
    }
  }

  /** From every state of every run a waiting closer can still return, with the context freed. */
  lemma CloserCanFinish(host: Host, s: State, a: nat) returns (moves: seq<Move>)
    requires Inv(s) && a < |s.actors| && s.actors[a].Waiting?
    ensures var t := Run(host, s, moves); Inv(t) && |t.actors| == |s.actors| && t.actors[a].Idle? && !t.ctx
    ensures forall m :: m in moves ==> !m.act.Interrupt?
  {
    hide Inv, Run;
    var first := Drain(host, s);
    var t := Run(host, s, first);
    WaitingMeansClosing(t, a);
    var wake, free := Move(a, Wake), Move(a, FreeContext);
    NextKeeps(host, t, wake);
    NextKeeps(host, Next(host, t, wake), free);
    RunSnoc(host, s, first, wake);
    RunSnoc(host, s, first + [wake], free);
    moves := first + [wake] + [free];
  }

  // ---- The Java closer whose wait is interrupted ----

  /** Still has a native call to make or finish, or a stream to release. */
  predicate Pending(p: Phase) {
    Counted(p) && !p.RunLeaving? && !p.ArrowLeaving?
  }

  predicate NonePending(s: State) {
    forall b :: 0 <= b < |s.actors| ==> !Pending(s.actors[b])
  }

  /** Whatever follows keeps the contract. */
  ghost predicate SafeFrom(s: State) {
    forall moves: seq<Move> :: Run(Java, s, moves).native.ok
  }

  /** The context is taken and nobody will use it again, except the one closer that frees it. */
  predicate Over(s: State) {
    && s.closing && !s.ctx && s.native.ok && s.native.calls == 0 && s.native.streams == 0
    && Owned(s) && NonePending(s)
  }

  lemma OverKeeps(s: State, m: Move)
    requires Over(s)
    ensures Over(Next(Java, s, m))
  {
    hide Count;
    if m.actor < |s.actors| {
      var a := m.actor;
      var t := Next(Java, s, m);
      assert !Pending(s.actors[a]);
      if FreesContext(s.actors[a]) { CountAtLeast(s.actors, a, FreesContext); }
      CountUpdate(s.actors, a, t.actors[a], FreesContext);
      CountUpdate(s.actors, a, Idle, FreesContext);
      CountNotified(s.actors[a := Idle], FreesContext);
    }
  }

  lemma {:induction false} OverIsSafe(s: State, moves: seq<Move>)
    requires Over(s)
    ensures Over(Run(Java, s, moves))
  {
    hide Over, Next;
    if moves != [] {
      OverIsSafe(s, moves[..|moves| - 1]);
      OverKeeps(Run(Java, s, moves[..|moves| - 1]), moves[|moves| - 1]);
    }
  }

  /** The move that breaks the contract when `b` is pending at the interrupt of `a`. */
  function Breach(s: State, a: nat, b: nat): Move
    requires b < |s.actors|
  {
    match s.actors[b]
    case RunEntered => Move(b, CallRun)
    case ArrowEntered => Move(b, CallArrow)
    case _ => Move(a, FreeContext)
  }

  lemma PendingBreaks(s: State, a: nat, b: nat)
    requires Inv(s) && s.ctx && a < |s.actors| && s.actors[a].Waiting? && b < |s.actors| && Pending(s.actors[b])
    ensures !Run(Java, Next(Java, s, Move(a, Interrupt)), [Breach(s, a, b)]).native.ok
  {
    hide Inv;
    PhaseMeans(s, b);
    var t := Next(Java, s, Move(a, Interrupt));
    RunSnoc(Java, t, [], Breach(s, a, b));
    assert [] + [Breach(s, a, b)] == [Breach(s, a, b)];
  }

  /**
   * An interrupted wait keeps the contract, whatever follows, if and only if every counted call has already returned from
   * the library, and every reader has released its stream.
   */
  lemma InterruptSafeIff(s: State, a: nat)
    requires Inv(s) && s.ctx && a < |s.actors| && s.actors[a].Waiting?
    ensures SafeFrom(Next(Java, s, Move(a, Interrupt))) <==> NonePending(s)
  {
    hide Run, Count;
    var t := Next(Java, s, Move(a, Interrupt));
    if NonePending(s) {
      InterruptEndsIt(s, a);
      forall moves: seq<Move> ensures Run(Java, t, moves).native.ok { OverIsSafe(t, moves); }
    } else {
      var b :| 0 <= b < |s.actors| && Pending(s.actors[b]);
      PendingBreaks(s, a, b);
    }
  }

  lemma InterruptEndsIt(s: State, a: nat)
    requires Inv(s) && s.ctx && a < |s.actors| && s.actors[a].Waiting? && NonePending(s)
    ensures Over(Next(Java, s, Move(a, Interrupt)))
  {
    hide Count;
    WaitingMeansClosing(s, a);
    CountUpdate(s.actors, a, Freeing(true), FreesContext);
    NoneCounted(s.actors, InCall);
    NoneCounted(s.actors, HasStream);
  }

  lemma {:induction false} NoneCounted(actors: seq<Phase>, p: Phase -> bool)
    requires forall b :: 0 <= b < |actors| ==> !p(actors[b])
    ensures Count(actors, p) == 0
  {
    if actors != [] { NoneCounted(actors[..|actors| - 1], p); }
  }

  /** A run of two threads in which the interrupted closer frees the context under a running call. */
  lemma InterruptedRun()
    ensures !Run(Java, Start(2),
              [Move(0, EnterRun), Move(0, CallRun), Move(1, Close)] + [Move(1, Interrupt), Move(1, FreeContext)]).native.ok
  {
    hide Run, Next;
    RunConcat(Java, Start(2), [Move(0, EnterRun), Move(0, CallRun), Move(1, Close)], [Move(1, Interrupt), Move(1, FreeContext)]);
    CloserWaits();
    WaitIsCutShort();
  }

  function InUse(): State {
    State(true, 1, true, [RunNative, Waiting(false)], Native(1, 0, 1, 0, false, true))
  }

  lemma CloserWaits()
    ensures Run(Java, Start(2), [Move(0, EnterRun), Move(0, CallRun), Move(1, Close)]) == InUse()
  {
    hide Run;
    ThreeMoves(Start(2), Move(0, EnterRun), Move(0, CallRun), Move(1, Close));
    var s1 := Next(Java, Start(2), Move(0, EnterRun));
    assert s1.actors == [RunEntered, Idle] && s1.inflight == 1 && !s1.closing && s1.ctx;
    var s2 := Next(Java, s1, Move(0, CallRun));
    assert s2.actors == [RunNative, Idle];
  }

  lemma ThreeMoves(s: State, a: Move, b: Move, c: Move)
    ensures Run(Java, s, [a, b, c]) == Next(Java, Next(Java, Next(Java, s, a), b), c)
  {
    hide Next;
    RunSnoc(Java, s, [a, b], c);
    TwoMoves(s, a, b);
    assert [a, b] + [c] == [a, b, c];
  }

  lemma WaitIsCutShort()
    ensures !Run(Java, InUse(), [Move(1, Interrupt), Move(1, FreeContext)]).native.ok
  {
    hide Run;
    TwoMoves(InUse(), Move(1, Interrupt), Move(1, FreeContext));
  }

  lemma TwoMoves(s: State, a: Move, b: Move)
    ensures Run(Java, s, [a, b]) == Next(Java, Next(Java, s, a), b)
  {
    hide Next;
    RunSnoc(Java, s, [a], b);
    RunSnoc(Java, s, [], a);
    assert [] + [a] == [a] && [a] + [b] == [a, b];
  }
}
