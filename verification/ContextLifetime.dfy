/** One native context, its callers, readers and closers. */
module ContextLifetime {

  // ---- The contract: what may be called when ----

  datatype Event =
    | BeginCall(ctx: bool)  // a run call begins on the context, or on NULL
    | EndCall
    | StreamOut  // an Arrow call ends and hands out a live stream
    | Callback
    | Release
    | Shutdown(ctx: bool)
    | Free(ctx: bool)

  /** Calls inside the library, live streams, how often shutdown was called and a stream's callbacks were, whether the context
      was freed, and whether every event so far was allowed. */
  datatype Native = Native(calls: int, streams: int, shutdowns: nat, callbacks: nat, freed: bool, ok: bool)

  function Observe(n: Native, e: Event): Native {
    match e
    case BeginCall(ctx) => n.(calls := n.calls + 1, ok := n.ok && ctx && !n.freed)
    case EndCall => n.(calls := n.calls - 1, ok := n.ok && n.calls > 0 && !n.freed)
    case StreamOut => n.(calls := n.calls - 1, streams := n.streams + 1, ok := n.ok && n.calls > 0 && !n.freed)
    case Callback => n.(callbacks := n.callbacks + 1, ok := n.ok && n.streams > 0 && !n.freed)
    case Release => n.(streams := n.streams - 1, ok := n.ok && n.streams > 0 && !n.freed)
    case Shutdown(ctx) => n.(shutdowns := n.shutdowns + 1, ok := n.ok && ctx && !n.freed)
    case Free(ctx) => n.(freed := true, ok := n.ok && ctx && !n.freed && n.calls == 0 && n.streams == 0)
  }

  // ---- The actors ----

  /** Where one thread, or one reader together with the call that opened it, stands. */
  datatype Phase =
    | Idle
    | RunEntered | RunNative | RunLeaving
    | ArrowEntered | ArrowNative | Importing | Reading | Releasing | ArrowLeaving
    | Waiting(notified: bool)
    | Freeing(ctx: bool)

  /** Counted in `_inflight`. */
  predicate Counted(p: Phase) {
    !(p.Idle? || p.Waiting? || p.Freeing?)
  }

  predicate InCall(p: Phase) { p.RunNative? || p.ArrowNative? }

  predicate HasStream(p: Phase) { p.Importing? || p.Reading? || p.Releasing? }

  predicate FreesContext(p: Phase) { p == Freeing(true) }

  /** The fields under the lock, the actors, and the library as the contract sees it. */
  datatype State = State(closing: bool, inflight: int, ctx: bool, actors: seq<Phase>, native: Native)

  datatype Host = Python | Java

  datatype Act =
    | EnterRun | CallRun | ReturnRun | LeaveRun
    | FailBeforeCall
    | EnterArrow | CallArrow | ReturnArrow(ok: bool) | Import(ok: bool) | Read | CloseReader | ReleaseStream | LeaveArrow
    | Close | Wake | Interrupt | FreeContext

  datatype Move = Move(actor: nat, act: Act)

  function Start(actors: nat): State {
    State(false, 0, true, seq(actors, _ => Idle), Native(0, 0, 0, 0, false, true))
  }

  function To(s: State, a: nat, p: Phase): State
    requires a < |s.actors|
  {
    s.(actors := s.actors[a := p])
  }

  function Seen(s: State, e: Event): State {
    s.(native := Observe(s.native, e))
  }

  /** Every waiting closer is told to look again. */
  function NotifyAll(actors: seq<Phase>): seq<Phase> {
    seq(|actors|, i requires 0 <= i < |actors| => if actors[i].Waiting? then Waiting(true) else actors[i])
  }

  /** A counted call begins, unless the context is closing. */
  function Enter(s: State, a: nat, p: Phase): State
    requires a < |s.actors|
  {
    if s.closing then s else To(s.(inflight := s.inflight + 1), a, p)
  }

  /** The last of the run calls notifies; a reader that ends always does. */
  function Leave(s: State, a: nat, always: bool): State
    requires a < |s.actors|
  {
    var t := To(s.(inflight := s.inflight - 1), a, Idle);
    if always || t.inflight == 0 then t.(actors := NotifyAll(t.actors)) else t
  }

  /** Takes the context for the caller to free. */
  function Take(s: State, a: nat): State
    requires a < |s.actors|
  {
    To(s.(ctx := false), a, Freeing(s.ctx))
  }

  function TakeOrWait(s: State, a: nat): State
    requires a < |s.actors|
  {
    if s.inflight > 0 then To(s, a, Waiting(false)) else Take(s, a)
  }

  function BeginClose(host: Host, s: State, a: nat): State
    requires a < |s.actors|
  {
    if host.Java? && s.closing && !s.ctx then s
    else
      var t := s.(closing := true);
      TakeOrWait(if s.ctx then Seen(t, Shutdown(true)) else t, a)
  }

  /** One step of one actor; a step that its phase does not allow changes nothing. */
  function Next(host: Host, s: State, m: Move): State {
    if m.actor >= |s.actors| then s
    else
      var a := m.actor;
      match (s.actors[a], m.act)
      case (Idle, EnterRun) => Enter(s, a, RunEntered)
      case (RunEntered, FailBeforeCall) => To(s, a, RunLeaving)
      case (ArrowEntered, FailBeforeCall) => To(s, a, ArrowLeaving)
      case (RunEntered, CallRun) => To(Seen(s, BeginCall(s.ctx)), a, RunNative)
      case (RunNative, ReturnRun) => To(Seen(s, EndCall), a, RunLeaving)
      case (RunLeaving, LeaveRun) => Leave(s, a, false)
      case (Idle, EnterArrow) => Enter(s, a, ArrowEntered)
      case (ArrowEntered, CallArrow) => To(Seen(s, BeginCall(s.ctx)), a, ArrowNative)
      case (ArrowNative, ReturnArrow(ok)) =>
        if ok then To(Seen(s, StreamOut), a, Importing) else To(Seen(s, EndCall), a, ArrowLeaving)
      case (Importing, Import(ok)) => To(s, a, if ok then Reading else Releasing)
      case (Reading, Read) => Seen(s, Callback)
      case (Reading, CloseReader) => To(s, a, Releasing)
      case (Releasing, ReleaseStream) => To(Seen(s, Release), a, ArrowLeaving)
      case (ArrowLeaving, LeaveArrow) => Leave(s, a, true)
      case (Idle, Close) => BeginClose(host, s, a)
      case (Waiting(_), Wake) => TakeOrWait(s, a)
      case (Waiting(_), Interrupt) => if host.Java? then Take(s, a) else s
      case (Freeing(ctx), FreeContext) => To(if ctx then Seen(s, Free(true)) else s, a, Idle)
      case _ => s
  }

  function Run(host: Host, s: State, moves: seq<Move>): State {
    if moves == [] then s else Next(host, Run(host, s, moves[..|moves| - 1]), moves[|moves| - 1])
  }

  // ---- Counting actors ----

  function Count(actors: seq<Phase>, p: Phase -> bool): nat {
    if actors == [] then 0
    else Count(actors[..|actors| - 1], p) + if p(actors[|actors| - 1]) then 1 else 0
  }

  function Bit(b: bool): nat { if b then 1 else 0 }

  lemma {:induction false} CountUpdate(actors: seq<Phase>, a: nat, x: Phase, p: Phase -> bool)
    requires a < |actors|
    ensures Count(actors[a := x], p) == Count(actors, p) - Bit(p(actors[a])) + Bit(p(x))
  {
    var front := actors[..|actors| - 1];
    if a == |actors| - 1 {
      assert actors[a := x][..|actors| - 1] == front;
    } else {
      CountUpdate(front, a, x, p);
      assert actors[a := x][..|actors| - 1] == front[a := x];
    }
  }

  /** Notifying changes no count of phases that treats all waiting closers alike. */
  lemma {:induction false} CountNotified(actors: seq<Phase>, p: Phase -> bool)
    requires p(Waiting(true)) == p(Waiting(false))
    ensures Count(NotifyAll(actors), p) == Count(actors, p)
  {
    if actors != [] {
      CountNotified(actors[..|actors| - 1], p);
      assert NotifyAll(actors)[..|actors| - 1] == NotifyAll(actors[..|actors| - 1]);
    }
  }

  lemma {:induction false} CountAtLeast(actors: seq<Phase>, a: nat, p: Phase -> bool)
    requires a < |actors| && p(actors[a])
    ensures Count(actors, p) > 0
  {
    if a < |actors| - 1 { CountAtLeast(actors[..|actors| - 1], a, p); }
  }

  lemma {:induction false} CountStart(n: nat, p: Phase -> bool)
    requires !p(Idle)
    ensures Count(seq(n, _ => Idle), p) == 0
  {
    if n > 0 {
      CountStart(n - 1, p);
      assert seq(n, _ => Idle)[..n - 1] == seq(n - 1, _ => Idle);
    }
  }

  lemma {:induction false} CountSub(actors: seq<Phase>, p: Phase -> bool, q: Phase -> bool, r: Phase -> bool)
    requires forall x :: Bit(p(x)) + Bit(q(x)) <= Bit(r(x))
    ensures Count(actors, p) + Count(actors, q) <= Count(actors, r)
  {
    if actors != [] {
      CountSub(actors[..|actors| - 1], p, q, r);
      var x := actors[|actors| - 1];
      assert Bit(p(x)) + Bit(q(x)) <= Bit(r(x));
    }
  }

  // ---- What every run keeps ----

  /** A closer waits only while the context is closing, and without a pending notification only while calls are counted. */
  predicate Woken(closing: bool, inflight: int, p: Phase) {
    p.Waiting? ==> closing && (p.notified || inflight > 0)
  }

  /** Who holds the context: the field, one closer about to free it, or nobody any more. */
  predicate Owned(s: State) {
    Bit(s.ctx) + Count(s.actors, FreesContext) + Bit(s.native.freed) == 1
  }

  predicate Accounted(s: State) {
    && s.inflight == Count(s.actors, Counted)
    && s.native.calls == Count(s.actors, InCall)
    && s.native.streams == Count(s.actors, HasStream)
  }

  predicate Inv(s: State) {
    && Accounted(s) && Owned(s) && s.native.ok
    && (!s.ctx ==> s.closing && s.inflight == 0)
    && (s.closing ==> s.native.shutdowns >= 1)
    && forall a :: 0 <= a < |s.actors| ==> Woken(s.closing, s.inflight, s.actors[a])
  }

  // ---- Each step keeps it ----

  predicate CountsAre(actors: seq<Phase>, counted: int, inCall: int, streams: int, frees: int) {
    && Count(actors, Counted) == counted && Count(actors, InCall) == inCall
    && Count(actors, HasStream) == streams && Count(actors, FreesContext) == frees
  }

  lemma CountsMove(actors: seq<Phase>, a: nat, x: Phase)
    requires a < |actors|
    ensures var p := actors[a];
            CountsAre(actors[a := x],
              Count(actors, Counted) - Bit(Counted(p)) + Bit(Counted(x)), Count(actors, InCall) - Bit(InCall(p)) + Bit(InCall(x)),
              Count(actors, HasStream) - Bit(HasStream(p)) + Bit(HasStream(x)),
              Count(actors, FreesContext) - Bit(FreesContext(p)) + Bit(FreesContext(x)))
  {
    CountUpdate(actors, a, x, Counted);
    CountUpdate(actors, a, x, InCall);
    CountUpdate(actors, a, x, HasStream);
    CountUpdate(actors, a, x, FreesContext);
  }

  lemma CountsNotify(actors: seq<Phase>)
    ensures CountsAre(NotifyAll(actors), Count(actors, Counted), Count(actors, InCall), Count(actors, HasStream),
              Count(actors, FreesContext))
  {
    CountNotified(actors, Counted);
    CountNotified(actors, InCall);
    CountNotified(actors, HasStream);
    CountNotified(actors, FreesContext);
  }

  /** What an actor's phase says of the whole: a counted one keeps the context alive, and a freer has it alone. */
  lemma PhaseMeans(s: State, a: nat)
    requires Inv(s) && a < |s.actors|
    ensures Counted(s.actors[a]) ==> s.inflight > 0 && s.ctx && !s.native.freed
    ensures InCall(s.actors[a]) ==> s.native.calls > 0
    ensures HasStream(s.actors[a]) ==> s.native.streams > 0
    ensures FreesContext(s.actors[a]) ==> !s.ctx && !s.native.freed && s.native.calls == 0 && s.native.streams == 0
  {
    hide Count;
    if Counted(s.actors[a]) { CountAtLeast(s.actors, a, Counted); }
    if InCall(s.actors[a]) { CountAtLeast(s.actors, a, InCall); }
    if HasStream(s.actors[a]) { CountAtLeast(s.actors, a, HasStream); }
    if FreesContext(s.actors[a]) {
      CountAtLeast(s.actors, a, FreesContext);
      CountSub(s.actors, InCall, HasStream, Counted);
    }
  }

  /** Steps of a native call, or of one that fails before it is made, which leave the fields under the lock alone. */
  predicate OfCall(act: Act) {
    act.FailBeforeCall? || act.CallRun? || act.ReturnRun? || act.CallArrow? || act.ReturnArrow?
  }

  /** Steps with a stream, and the free outside the lock. */
  predicate OfStream(act: Act) {
    act.Import? || act.Read? || act.CloseReader? || act.ReleaseStream? || act.FreeContext?
  }

  lemma CallKeeps(host: Host, s: State, m: Move)
    requires Inv(s) && m.actor < |s.actors| && OfCall(m.act)
    ensures Inv(Next(host, s, m))
  {
    hide Count;
    var t := Next(host, s, m);
    PhaseMeans(s, m.actor);
    CountsMove(s.actors, m.actor, t.actors[m.actor]);
  }

  lemma StreamKeeps(host: Host, s: State, m: Move)
    requires Inv(s) && m.actor < |s.actors| && OfStream(m.act)
    ensures Inv(Next(host, s, m))
  {
    hide Count;
    var t := Next(host, s, m);
    PhaseMeans(s, m.actor);
    CountsMove(s.actors, m.actor, t.actors[m.actor]);
  }

  lemma EnterKeeps(s: State, a: nat, p: Phase)
    requires Inv(s) && a < |s.actors| && s.actors[a].Idle? && (p.RunEntered? || p.ArrowEntered?)
    ensures Inv(Enter(s, a, p))
  {
    hide Count;
    CountsMove(s.actors, a, p);
  }

  lemma LeaveKeeps(s: State, a: nat, always: bool)
    requires Inv(s) && a < |s.actors| && (s.actors[a].RunLeaving? || s.actors[a].ArrowLeaving?)
    ensures Inv(Leave(s, a, always))
  {
    hide Count;
    PhaseMeans(s, a);
    CountsMove(s.actors, a, Idle);
    CountsNotify(s.actors[a := Idle]);
  }

  /** Taking the context is safe when no call is counted. */
  lemma TakeKeeps(s: State, a: nat)
    requires Inv(s) && a < |s.actors| && s.closing && s.inflight == 0 && (s.actors[a].Idle? || s.actors[a].Waiting?)
    ensures Inv(Take(s, a))
  {
    hide Count;
    CountsMove(s.actors, a, Freeing(s.ctx));
  }

  lemma TakeOrWaitKeeps(s: State, a: nat)
    requires Inv(s) && a < |s.actors| && s.closing && (s.actors[a].Idle? || s.actors[a].Waiting?)
    ensures Inv(TakeOrWait(s, a))
  {
    hide Count;
    if s.inflight > 0 { CountsMove(s.actors, a, Waiting(false)); } else { TakeKeeps(s, a); }
  }

  lemma BeginCloseKeeps(host: Host, s: State, a: nat)
    requires Inv(s) && a < |s.actors| && s.actors[a].Idle?
    ensures Inv(BeginClose(host, s, a))
  {
    hide Count;
    var t := s.(closing := true);
    TakeOrWaitKeeps(if s.ctx then Seen(t, Shutdown(true)) else t, a);
  }

  /** No closer's wait is cut short while calls are counted. Python's wait never is. */
  predicate Uninterrupted(host: Host, s: State, m: Move) {
    host.Java? && m.act.Interrupt? ==> s.inflight == 0
  }

  lemma NextKeeps(host: Host, s: State, m: Move)
    requires Inv(s) && Uninterrupted(host, s, m)
    ensures Inv(Next(host, s, m))
  {
    hide Inv, Enter, Leave, Take, TakeOrWait, BeginClose;
    if m.actor < |s.actors| {
      var a := m.actor;
      assert s.actors[a].Waiting? ==> s.closing by { WaitingMeansClosing(s, a); }
      if OfCall(m.act) {
        CallKeeps(host, s, m);
      } else if OfStream(m.act) {
        StreamKeeps(host, s, m);
      } else {
        match (s.actors[a], m.act)
        case (Idle, EnterRun) => EnterKeeps(s, a, RunEntered);
        case (Idle, EnterArrow) => EnterKeeps(s, a, ArrowEntered);
        case (RunLeaving, LeaveRun) => LeaveKeeps(s, a, false);
        case (ArrowLeaving, LeaveArrow) => LeaveKeeps(s, a, true);
        case (Idle, Close) => BeginCloseKeeps(host, s, a);
        case (Waiting(_), Wake) => TakeOrWaitKeeps(s, a);
        case (Waiting(_), Interrupt) => if host.Java? { TakeKeeps(s, a); }
        case _ =>
      }
    }
  }

  lemma WaitingMeansClosing(s: State, a: nat)
    requires Inv(s) && a < |s.actors|
    ensures s.actors[a].Waiting? ==> s.closing
  {
    hide Count;
    assert Woken(s.closing, s.inflight, s.actors[a]);
  }

  lemma StartKeeps(n: nat)
    ensures Inv(Start(n))
  {
    hide Count;
    CountStart(n, Counted);
    CountStart(n, InCall);
    CountStart(n, HasStream);
    CountStart(n, FreesContext);
  }

  /**
   * Any number of callers, readers and closers, in any order, no wait cut short: every native call meets the contract of
   * the header, the in-flight count is exact, and no wake-up is lost.
   */
  lemma {:induction false} EveryRunMeetsTheContract(host: Host, n: nat, moves: seq<Move>)
    requires forall i :: 0 <= i < |moves| ==> Uninterrupted(host, Run(host, Start(n), moves[..i]), moves[i])
    ensures Inv(Run(host, Start(n), moves)) && Run(host, Start(n), moves).native.ok
  {
    hide Inv, Next, Uninterrupted;
    if moves == [] {
      StartKeeps(n);
    } else {
      var front := moves[..|moves| - 1];
      forall i | 0 <= i < |front| ensures Uninterrupted(host, Run(host, Start(n), front[..i]), front[i]) {
        assert front[..i] == moves[..i];
      }
      EveryRunMeetsTheContract(host, n, front);
      NextKeeps(host, Run(host, Start(n), front), moves[|moves| - 1]);
    }
    InvMeansOk(Run(host, Start(n), moves));
  }

  lemma InvMeansOk(s: State)
    requires Inv(s)
    ensures s.native.ok
  {
  }

  // ---- Shutdown comes first ----

  /** A closer that waits, or has taken a context that was held. */
  predicate ClosesContext(p: Phase) { p.Waiting? || FreesContext(p) }

  /** In every such run, before any closer waits or takes the context, shutdown was called on it, while it was live. */
  lemma ShutdownBeforeWaiting(host: Host, n: nat, moves: seq<Move>, a: nat)
    requires forall i :: 0 <= i < |moves| ==> Uninterrupted(host, Run(host, Start(n), moves[..i]), moves[i])
    requires a < |Run(host, Start(n), moves).actors| && ClosesContext(Run(host, Start(n), moves).actors[a])
    ensures var s := Run(host, Start(n), moves); s.closing && s.native.shutdowns >= 1 && s.native.ok
  {
    hide Run, Start, Uninterrupted;
    EveryRunMeetsTheContract(host, n, moves);
    ClosingMeansShutdown(Run(host, Start(n), moves), a);
  }

  lemma ClosingMeansShutdown(s: State, a: nat)
    requires Inv(s) && a < |s.actors| && ClosesContext(s.actors[a])
    ensures s.closing && s.native.shutdowns >= 1
  {
    WaitingMeansClosing(s, a);
    PhaseMeans(s, a);
  }

  /** Every close of a held context calls shutdown once more, and every read of a batch a callback; nothing else does. */
  lemma ShutdownsAndCallbacks(host: Host, s: State, m: Move)
    ensures var t := Next(host, s, m);
      && t.native.shutdowns == s.native.shutdowns + Bit(m.actor < |s.actors| && s.actors[m.actor].Idle? && m.act.Close? && s.ctx)
      && t.native.callbacks == s.native.callbacks + Bit(m.actor < |s.actors| && s.actors[m.actor].Reading? && m.act.Read?)
  {
    hide Enter, Leave, Take, TakeOrWait, BeginClose, To, Seen;
    if m.actor < |s.actors| {
      var a := m.actor;
      SectionsLeaveNative(s, a);
      SeenAndTo(s, a);
      match (s.actors[a], m.act)
      case (Idle, Close) => CloseShutsDown(host, s, a);
      case (Freeing(_), FreeContext) => SeenAndTo(Seen(s, Free(true)), a);
      case (RunEntered, CallRun) => SeenAndTo(Seen(s, BeginCall(s.ctx)), a);
      case (RunNative, ReturnRun) => SeenAndTo(Seen(s, EndCall), a);
      case (ArrowEntered, CallArrow) => SeenAndTo(Seen(s, BeginCall(s.ctx)), a);
      case (ArrowNative, ReturnArrow(ok)) => SeenAndTo(Seen(s, if ok then StreamOut else EndCall), a);
      case (Releasing, ReleaseStream) => SeenAndTo(Seen(s, Release), a);
      case _ =>
    }
  }

  lemma SectionsLeaveNative(s: State, a: nat)
    requires a < |s.actors|
    ensures forall p :: Enter(s, a, p).native == s.native
    ensures forall always :: Leave(s, a, always).native == s.native
    ensures Take(s, a).native == s.native && TakeOrWait(s, a).native == s.native
  {
    hide NotifyAll;
  }

  lemma SeenAndTo(s: State, a: nat)
    requires a < |s.actors|
    ensures forall p :: To(s, a, p).native == s.native
    ensures forall e :: Seen(s, e).native == Observe(s.native, e) && |Seen(s, e).actors| == |s.actors|
  {
    hide Observe;
  }

  lemma CloseShutsDown(host: Host, s: State, a: nat)
    requires a < |s.actors|
    ensures BeginClose(host, s, a).native == if s.ctx then Observe(s.native, Shutdown(true)) else s.native
  {
    hide TakeOrWait, Seen, To;
    var t := s.(closing := true);
    SeenAndTo(t, a);
    SectionsLeaveNative(if s.ctx then Seen(t, Shutdown(true)) else t, a);
  }
}
