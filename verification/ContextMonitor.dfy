/** The fields `_closing`, `_inflight` and `_ctx`, and the atomic sections of the methods that update them. */
module ContextMonitor {
  import opened ContextLifetime

  /**
   * One context. Each method is what happens under one holding of the lock, or one native call outside it; the ghost fields
   * record where every actor stands and what the library has seen, and each method makes the machine's step.
   */
  class Context {
    const host: Host
    var closing: bool
    var inflight: int
    var ctx: bool
    ghost var actors: seq<Phase>
    ghost var native: Native

    ghost function Now(): State
      reads this
    {
      State(closing, inflight, ctx, actors, native)
    }

    constructor (host: Host, ghost actors: nat)
      ensures this.host == host && Now() == Start(actors) && Inv(Now())
    {
      this.host := host;
      closing, inflight, ctx := false, 0, true;
      this.actors, native := seq(actors, _ => Idle), Native(0, 0, 0, 0, false, true);
      StartKeeps(actors);
    }

    /** The entry of `run_raw`: refused once closing. */
    method EnterRun(ghost a: nat) returns (entered: bool)
      requires Inv(Now()) && a < |actors| && actors[a].Idle?
      modifies this
      ensures Inv(Now()) && Now() == Next(host, old(Now()), Move(a, Act.EnterRun))
      ensures entered == !old(closing)
    {
      NextKeeps(host, Now(), Move(a, Act.EnterRun));
      entered := if host.Java? then !(closing || !ctx) else !closing;
      if entered {
        inflight := inflight + 1;
        actors := actors[a := RunEntered];
      }
    }

    /** The native call itself, outside the lock, on the context field as it is then: never NULL. */
    method CallRun(ghost a: nat) returns (pointer: bool)
      requires Inv(Now()) && a < |actors| && actors[a].RunEntered?
      modifies this
      ensures Inv(Now()) && Now() == Next(host, old(Now()), Move(a, Act.CallRun))
      ensures pointer && closing == old(closing) && inflight == old(inflight) && ctx == old(ctx)
    {
      NextKeeps(host, Now(), Move(a, Act.CallRun));
      PhaseMeans(Now(), a);
      pointer := ctx;
      native := Observe(native, BeginCall(pointer));
      actors := actors[a := RunNative];
    }

    /** The exit of `run_raw`: the last call out wakes every waiting closer. */
    method LeaveRun(ghost a: nat)
      requires Inv(Now()) && a < |actors| && actors[a].RunLeaving?
      modifies this
      ensures Inv(Now()) && Now() == Next(host, old(Now()), Move(a, Act.LeaveRun))
      ensures inflight == old(inflight) - 1 && closing == old(closing) && ctx == old(ctx)
    {
      NextKeeps(host, Now(), Move(a, Act.LeaveRun));
      inflight := inflight - 1;
      actors := actors[a := Idle];
      if inflight == 0 { actors := NotifyAll(actors); }
    }

    /** The entry of `open_reader`. */
    method EnterArrow(ghost a: nat) returns (entered: bool)
      requires Inv(Now()) && a < |actors| && actors[a].Idle?
      modifies this
      ensures Inv(Now()) && Now() == Next(host, old(Now()), Move(a, Act.EnterArrow))
      ensures entered == !old(closing)
    {
      NextKeeps(host, Now(), Move(a, Act.EnterArrow));
      entered := !closing;
      if entered {
        inflight := inflight + 1;
        actors := actors[a := ArrowEntered];
      }
    }

    /** A reader is closed: it gives up its owner, and the stream is released outside the lock. */
    method ReleaseReader(ghost a: nat)
      requires Inv(Now()) && a < |actors| && actors[a].Reading?
      modifies this
      ensures Inv(Now())
      ensures Now() == Next(host, Next(host, old(Now()), Move(a, CloseReader)), Move(a, ReleaseStream))
      ensures inflight == old(inflight) && |actors| == |old(actors)| && actors[a].ArrowLeaving?
    {
      hide Inv, Next;
      ReleaseSteps(host, Now(), a);
      native := Observe(native, Release);
      actors := actors[a := ArrowLeaving];
    }

    /** A reader or a failed opening ends: always wakes the closers. */
    method LeaveArrow(ghost a: nat)
      requires Inv(Now()) && a < |actors| && actors[a].ArrowLeaving?
      modifies this
      ensures Inv(Now()) && Now() == Next(host, old(Now()), Move(a, Act.LeaveArrow))
      ensures inflight == old(inflight) - 1 && closing == old(closing) && ctx == old(ctx)
    {
      NextKeeps(host, Now(), Move(a, Act.LeaveArrow));
      inflight := inflight - 1;
      actors := NotifyAll(actors[a := Idle]);
    }

    /** Close up to its first wait: nothing new is counted from now on, and the context is taken once nothing is. */
    method BeginClose(ghost a: nat) returns (wait: bool, toClose: bool)
      requires Inv(Now()) && a < |actors| && actors[a].Idle?
      modifies this
      ensures Inv(Now()) && Now() == Next(host, old(Now()), Move(a, Close))
      ensures closing && wait == (old(inflight) > 0) && toClose == (!wait && old(ctx))
      ensures native.shutdowns == old(native).shutdowns + Bit(old(ctx)) && native.shutdowns >= 1
    {
      NextKeeps(host, Now(), Move(a, Close));
      ShutdownsAndCallbacks(host, Now(), Move(a, Close));
      if host.Java? && closing && !ctx { return false, false; }
      closing := true;
      if ctx { native := Observe(native, Shutdown(true)); }
      wait, toClose := TakeOrWait(a);
    }

    /** A closer back from its wait looks again. */
    method Wake(ghost a: nat) returns (wait: bool, toClose: bool)
      requires Inv(Now()) && a < |actors| && actors[a].Waiting?
      modifies this
      ensures Inv(Now()) && Now() == Next(host, old(Now()), Move(a, Act.Wake))
      ensures wait == (old(inflight) > 0) && toClose == (!wait && old(ctx))
    {
      NextKeeps(host, Now(), Move(a, Act.Wake));
      wait, toClose := TakeOrWait(a);
    }

    method TakeOrWait(ghost a: nat) returns (wait: bool, toClose: bool)
      requires a < |actors|
      modifies this
      ensures Now() == ContextLifetime.TakeOrWait(old(Now()), a)
      ensures wait == (old(inflight) > 0) && toClose == (!wait && old(ctx))
    {
      wait := inflight > 0;
      if wait {
        toClose := false;
        actors := actors[a := Waiting(false)];
      } else {
        toClose := ctx;
        actors := actors[a := Freeing(ctx)];
        ctx := false;
      }
    }

    /** The free outside the lock, by the one closer that took the context: no call is inside and no stream is live. */
    method FreeContext(ghost a: nat)
      requires Inv(Now()) && a < |actors| && actors[a] == Freeing(true)
      modifies this
      ensures Inv(Now()) && Now() == Next(host, old(Now()), Move(a, Act.FreeContext))
      ensures !old(native).freed && native.freed && native.calls == 0 && native.streams == 0
    {
      NextKeeps(host, Now(), Move(a, Act.FreeContext));
      PhaseMeans(Now(), a);
      native := Observe(native, Free(true));
      actors := actors[a := Idle];
    }
  }

  lemma ReleaseSteps(host: Host, s: State, a: nat)
    requires Inv(s) && a < |s.actors| && s.actors[a].Reading?
    ensures var t := Next(host, Next(host, s, Move(a, CloseReader)), Move(a, ReleaseStream));
            Inv(t) && t == s.(actors := s.actors[a := ArrowLeaving], native := Observe(s.native, Release))
  {
    hide Inv;
    var mid := Next(host, s, Move(a, CloseReader));
    NextKeeps(host, s, Move(a, CloseReader));
    NextKeeps(host, mid, Move(a, ReleaseStream));
    assert mid == s.(actors := s.actors[a := Releasing]);
    assert s.actors[a := Releasing][a := ArrowLeaving] == s.actors[a := ArrowLeaving];
  }

  /** A reader's `_owner`: cleared by the first close, so that the stream is released and the count drops only once. */
  class Reader {
    var owner: Context?
    ghost const self: nat

    constructor (owner: Context, ghost a: nat)
      ensures this.owner == owner && self == a
    {
      this.owner, self := owner, a;
    }

    method Close()
      requires owner != null ==> Inv(owner.Now()) && self < |owner.actors| && owner.actors[self].Reading?
      modifies this, if owner != null then {owner} else {}
      ensures owner == null
      ensures old(owner) != null ==>
                Inv(old(owner).Now()) && old(owner).Now() == Closed(old(owner).host, old(owner.Now()), self)
      ensures old(owner) != null ==> old(owner).inflight == old(owner.inflight) - 1
    {
      hide Inv, Next;
      var o := owner;
      owner := null;
      if o != null {
        o.ReleaseReader(self);
        o.LeaveArrow(self);
      }
    }
  }

  /** A reader closed, its stream released, its call no longer counted. */
  function Closed(host: Host, s: State, a: nat): State {
    Next(host, Next(host, Next(host, s, Move(a, CloseReader)), Move(a, ReleaseStream)), Move(a, LeaveArrow))
  }
}
