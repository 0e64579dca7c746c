/** The order of the calls that a context gets, and that every run keeps it. */
module ContextTrace {
  import opened ContextLifetime

  // ---- The order ----

  function Times(events: seq<Event>, p: Event -> bool): nat {
    if events == [] then 0 else Times(events[..|events| - 1], p) + if p(events[|events| - 1]) then 1 else 0
  }

  predicate Begins(e: Event) { e.BeginCall? }

  predicate Ends(e: Event) { e.EndCall? || e.StreamOut? }

  predicate HandsOut(e: Event) { e.StreamOut? }

  predicate Releases(e: Event) { e.Release? }

  predicate ShutsDown(e: Event) { e.Shutdown? }

  predicate CallsBack(e: Event) { e.Callback? }

  /** Calls that began and have not ended. */
  function Open(events: seq<Event>): int {
    Times(events, Begins) - Times(events, Ends)
  }

  /** Streams that were handed out and not released. */
  function Live(events: seq<Event>): int {
    Times(events, HandsOut) - Times(events, Releases)
  }

  /** After `past`: nothing follows the free, nothing gets NULL, a call ends that began, a stream is used that is live, and the
      context is freed with no call inside and no stream live. */
  predicate MayFollow(past: seq<Event>, e: Event) {
    && (forall f :: f in past ==> !f.Free?)
    && ((e.BeginCall? || e.Shutdown? || e.Free?) ==> e.ctx)
    && ((e.EndCall? || e.StreamOut?) ==> Open(past) >= 1)
    && ((e.Callback? || e.Release?) ==> Live(past) >= 1)
    && (e.Free? ==> Open(past) == 0 && Live(past) == 0)
  }

  predicate InOrder(events: seq<Event>) {
    forall i :: 0 <= i < |events| ==> MayFollow(events[..i], events[i])
  }

  function Observed(events: seq<Event>): Native {
    if events == [] then Native(0, 0, 0, 0, false, true) else Observe(Observed(events[..|events| - 1]), events[|events| - 1])
  }

  predicate Counts(n: Native, events: seq<Event>) {
    && n.calls == Open(events) && n.streams == Live(events) && (n.freed <==> exists f :: f in events && f.Free?)
    && n.shutdowns == Times(events, ShutsDown) && n.callbacks == Times(events, CallsBack)
  }

  /** The library's counters are those of the calls, and it finds nothing wrong exactly when they came in order. */
  lemma {:induction false} ObservedIs(events: seq<Event>)
    ensures Counts(Observed(events), events)
    ensures Observed(events).ok <==> InOrder(events)
  {
    hide Counts, InOrder, Observe;
    if events == [] {
      NothingObserved();
    } else {
      var front, e := events[..|events| - 1], events[|events| - 1];
      ObservedIs(front);
      InOrderSnoc(front, e);
      OneMoreEvent(Observed(front), front, e);
      assert events == front + [e];
    }
  }

  lemma NothingObserved()
    ensures Counts(Observed([]), []) && InOrder([])
  {
  }

  lemma TimesSnoc(events: seq<Event>, e: Event, p: Event -> bool)
    ensures Times(events + [e], p) == Times(events, p) + if p(e) then 1 else 0
  {
    assert (events + [e])[..|events|] == events;
  }

  lemma OneMoreEvent(n: Native, events: seq<Event>, e: Event)
    requires Counts(n, events)
    ensures Counts(Observe(n, e), events + [e])
    ensures Observe(n, e).ok <==> n.ok && MayFollow(events, e)
  {
    hide Times;
    TimesSnoc(events, e, Begins);
    TimesSnoc(events, e, Ends);
    TimesSnoc(events, e, HandsOut);
    TimesSnoc(events, e, Releases);
    TimesSnoc(events, e, ShutsDown);
    TimesSnoc(events, e, CallsBack);
    assert forall f :: f in events + [e] <==> f in events || f == e;
  }

  lemma InOrderSnoc(front: seq<Event>, e: Event)
    ensures InOrder(front + [e]) <==> InOrder(front) && MayFollow(front, e)
  {
    hide MayFollow;
    var events := front + [e];
    assert events[..|front|] == front && events[|front|] == e;
    assert forall i :: 0 <= i < |front| ==> events[..i] == front[..i] && events[i] == front[i];
  }

  // ---- Every run ----

  lemma ObservedSnoc(events: seq<Event>, e: Event)
    ensures Observed(events + [e]) == Observe(Observed(events), e)
  {
    hide Observe;
    assert (events + [e])[..|events|] == events;
  }

  /** The calls that one step makes, none or one. */
  lemma StepCalls(host: Host, s: State, m: Move) returns (made: seq<Event>)
    ensures made == [] ==> Next(host, s, m).native == s.native
    ensures made != [] ==> |made| == 1 && Next(host, s, m).native == Observe(s.native, made[0])
  {
    hide Enter, Leave, Take, TakeOrWait, To, Seen, Observe;
    made := [];
    if m.actor < |s.actors| {
      var a := m.actor;
      SectionsLeaveNative(s, a);
      SeenAndTo(s, a);
      match (s.actors[a], m.act) {
      case (Idle, Close) =>
        var t := s.(closing := true);
        SectionsLeaveNative(t, a);
        SeenAndTo(t, a);
        if s.ctx { made := [Shutdown(true)]; SectionsLeaveNative(Seen(t, Shutdown(true)), a); }
      case (Freeing(ctx), FreeContext) => if ctx { made := [Free(true)]; }
      case (RunEntered, CallRun) => made := [BeginCall(s.ctx)];
      case (RunNative, ReturnRun) => made := [EndCall];
      case (ArrowEntered, CallArrow) => made := [BeginCall(s.ctx)];
      case (ArrowNative, ReturnArrow(ok)) => made := [if ok then StreamOut else EndCall];
      case (Releasing, ReleaseStream) => made := [Release];
      case (Reading, Read) => made := [Callback];
      case _ =>
      }
      if made != [] && !m.act.Close? { SeenAndTo(Seen(s, made[0]), a); }
    }
  }

  /** The calls of any run in which no wait is cut short come in order, and the library's counters are theirs. */
  lemma RunIsInOrder(host: Host, n: nat, moves: seq<Move>) returns (events: seq<Event>)
    requires forall i :: 0 <= i < |moves| ==> Uninterrupted(host, Run(host, Start(n), moves[..i]), moves[i])
    ensures Observed(events) == Run(host, Start(n), moves).native && InOrder(events)
  {
    events := RunCalls(host, n, moves);
    EveryRunMeetsTheContract(host, n, moves);
    ObservedIs(events);
  }

  lemma {:induction false} RunCalls(host: Host, n: nat, moves: seq<Move>) returns (events: seq<Event>)
    ensures Observed(events) == Run(host, Start(n), moves).native
  {
    hide Next, Observe;
    events := [];
    if moves != [] {
      var front, last := moves[..|moves| - 1], moves[|moves| - 1];
      events := RunCalls(host, n, front);
      var made := StepCalls(host, Run(host, Start(n), front), last);
      if made != [] {
        ObservedSnoc(events, made[0]);
        events := events + made;
      }
    }
  }

  // ---- The count and the wake-ups ----

  /** The actors inside a call or a reader's life. */
  function Inside(actors: seq<Phase>): set<nat> {
    set a: nat | a < |actors| && !actors[a].Idle? && !actors[a].Waiting? && !actors[a].Freeing?
  }

  lemma {:induction false} CountIsInside(actors: seq<Phase>)
    ensures Count(actors, Counted) == |Inside(actors)|
  {
    if actors != [] {
      var n := |actors| - 1;
      CountIsInside(actors[..n]);
      assert Inside(actors) == Inside(actors[..n]) + if Counted(actors[n]) then {n as nat} else {};
    }
  }

  /** In every such run the in-flight count is the number of actors inside, and a closer that waits without a notification to
      come waits for one of them. */
  lemma NoWakeUpLost(host: Host, n: nat, moves: seq<Move>)
    requires forall i :: 0 <= i < |moves| ==> Uninterrupted(host, Run(host, Start(n), moves[..i]), moves[i])
    ensures var s := Run(host, Start(n), moves);
      && s.inflight == |Inside(s.actors)|
      && (Waiting(false) in s.actors ==> Inside(s.actors) != {})
      && (s.native.freed ==> !s.ctx && Inside(s.actors) == {} && Freeing(true) !in s.actors)
  {
    hide Run, Start, Uninterrupted;
    EveryRunMeetsTheContract(host, n, moves);
    var s := Run(host, Start(n), moves);
    CountIsInside(s.actors);
    if Freeing(true) in s.actors {
      var a :| 0 <= a < |s.actors| && s.actors[a] == Freeing(true);
      CountAtLeast(s.actors, a, FreesContext);
    }
  }
}
