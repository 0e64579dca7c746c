/** The coordinator's protocol, for any number of queries at once. */
module Coordinator {
  import opened Options

  /** One aggregate of a prepared plan: its merge function and output name. */
  datatype Aggregate = Aggregate(fn: string, name: string)

  /** An accepted preparation. */
  datatype Prepared = Prepared(
    plan: string, aggregates: seq<Aggregate>, groups: seq<string>, inputs: seq<string>, counts: seq<nat>)

  /** A reply to a preparation: accepted, refused, or the call itself failed. */
  datatype Prep = Good(p: Prepared) | Bad | PrepRaised

  /** A reply to the capability question: both versions acknowledged, anything else, or the call itself failed. */
  datatype Ack = Yes | No | AckRaised

  /** A reply to a partial query: an answer, some other reply, or the call itself failed. */
  datatype Reply = Agg(answer: string) | Other | Raised

  /** A query: `key` names the worker's published version, None when it may change between two calls. */
  datatype Query = Query(
    key: Option<string>, plain: bool, hasAggregate: bool, inputs: seq<string>, counts: Option<seq<nat>>, workers: int)

  datatype Outcome = Answered(answers: seq<string>) | Refused | WorkerFailed | CallFailed | BadCounts

  const MERGEABLE := {"count", "sum", "min", "max", "avg"}

  /** The plan comes from the first input alone, and the full preparation runs beside the scatter. */
  predicate Early(q: Query) {
    q.counts.Some? && q.inputs != [] && forall i :: 0 <= i < |q.inputs| ==> '*' !in q.inputs[i]
  }

  function Total(counts: seq<nat>): nat {
    if counts == [] then 0 else counts[0] + Total(counts[1..])
  }

  /** How many payloads are sent: one a run, or a single one when there is no run. */
  function Payloads(counts: seq<nat>, workers: int): nat {
    if workers <= 0 || Total(counts) == 0 then 1 else if workers < Total(counts) then workers else Total(counts)
  }

  function CountsOf(q: Query, p: Prepared): seq<nat> {
    if q.counts.Some? then q.counts.value else p.counts
  }

  function InputsOf(q: Query, p: Prepared): seq<string> {
    if Early(q) then q.inputs else p.inputs
  }

  predicate HasStar(s: string) { exists i :: 0 <= i < |s| && s[i] == '*' }

  /** With counts given and no pattern among the inputs, the first input alone is prepared, and the inputs are those given; else
      all are prepared, and the inputs and, unless given, the counts are what the preparation found. */
  lemma FirstPreparation(q: Query, p: Prepared, cached: bool)
    ensures var named := q.counts.Some? && |q.inputs| >= 1 && forall u :: u in q.inputs ==> !HasStar(u);
      && Step(q, Trusted, cached, Prepare).Stepped?
      && Step(q, Trusted, cached, Prepare).events == [AskedPrepare(!named)]
      && InputsOf(q, p) == (if named then q.inputs else p.inputs)
      && (q.counts.Some? ==> q.counts == Some(CountsOf(q, p))) && (q.counts.None? ==> CountsOf(q, p) == p.counts)
  {
    if Early(q) {
      forall u | u in q.inputs ensures !HasStar(u) {}
    } else if i :| 0 <= i < |q.inputs| && '*' in q.inputs[i] {
      assert HasStar(q.inputs[i]) && q.inputs[i] in q.inputs;
    }
  }

  // ---- One query ----

  datatype Slot<T> = Unsent | Sent | Got(reply: T)

  datatype Phase =
    | Begin
    | Negotiating
    | Trusted
    | Preparing
    | Scattering(p: Prepared, full: Slot<Prep>, replies: seq<Slot<Reply>>)
    | Done(outcome: Outcome)

  datatype Act =
    | Start
    | Negotiated(ack: Ack)
    | Prepare
    | PrepareReply(prep: Prep)
    | SendFull
    | FullReply(prep: Prep)
    | SendPartial(i: nat)
    | PartialReply(i: nat, reply: Reply)
    | Finish

  /** What can be seen from outside: requests sent to workers and what came back. */
  datatype Event =
    | AskedCapabilities
    | Acknowledged
    | AskedPrepare(all: bool)
    | PreparedOk(all: bool, prepared: Prepared)
    | PrepareRefused
    | AskedPartial(index: nat)
    | Partial(index: nat, answer: string)
    | Finished(outcome: Outcome)

  datatype Stepped = Stepped(phase: Phase, remember: bool, events: seq<Event>) | Disabled

  /** After the first preparation: the checks, then as many payloads as runs. */
  function Planned(q: Query, p: Prepared): (s: Stepped)
    ensures s.Stepped? && !s.remember
  {
    var noted := PreparedOk(!Early(q), p);
    if exists i :: 0 <= i < |p.aggregates| && p.aggregates[i].fn !in MERGEABLE then
      Stepped(Done(Refused), false, [noted, Finished(Refused)])
    else if q.counts.Some? && |q.counts.value| != |InputsOf(q, p)| then
      Stepped(Done(BadCounts), false, [noted, Finished(BadCounts)])
    else
      Stepped(Scattering(p, Unsent, seq(Payloads(CountsOf(q, p), q.workers), _ => Unsent)), false, [noted])
  }

  /** The scatter's own outcome: a failed call before any reply that is no answer. */
  function Scattered(replies: seq<Reply>): Outcome {
    if Raised in replies then CallFailed
    else if Other in replies then WorkerFailed
    else Answered(seq(|replies|, i requires 0 <= i < |replies| => replies[i].answer))
  }

  predicate SamePlan(a: Prepared, b: Prepared) {
    a.plan == b.plan && a.aggregates == b.aggregates && a.groups == b.groups
  }

  /** The full preparation's outcome comes first, then the scatter's, then the comparison of the two plans. */
  function Checked(q: Query, p: Prepared, full: Slot<Prep>, replies: seq<Reply>): Outcome {
    if Early(q) && full == Got(Bad) then Refused
    else if Early(q) && full == Got(PrepRaised) then CallFailed
    else
      var scattered := Scattered(replies);
      if scattered.Answered? && Early(q) && full.Got? && full.reply.Good? && !SamePlan(full.reply.p, p) then Refused
      else scattered
  }

  function FullEvents(prep: Prep): seq<Event> {
    match prep
    case Good(p) => [PreparedOk(true, p)]
    case Bad => [PrepareRefused]
    case PrepRaised => []
  }

  predicate AllIn(replies: seq<Slot<Reply>>) {
    forall i :: 0 <= i < |replies| ==> replies[i].Got?
  }

  function Values(replies: seq<Slot<Reply>>): seq<Reply>
    requires AllIn(replies)
  {
    seq(|replies|, i requires 0 <= i < |replies| => replies[i].reply)
  }

  /** One step of a query in `phase`; `cached` says whether its key is in the capability cache. */
  function Step(q: Query, phase: Phase, cached: bool, act: Act): Stepped {
    match (phase, act)
    case (Begin, Start) =>
      if !q.plain || !q.hasAggregate then Stepped(Done(Refused), false, [Finished(Refused)])
      else if cached then Stepped(Trusted, false, [])
      else Stepped(Negotiating, false, [AskedCapabilities])
    case (Negotiating, Negotiated(ack)) =>
      (match ack
       case Yes => Stepped(Trusted, q.key.Some?, [Acknowledged])
       case No => Stepped(Done(Refused), false, [Finished(Refused)])
       case AckRaised => Stepped(Done(CallFailed), false, [Finished(CallFailed)]))
    case (Trusted, Prepare) => Stepped(Preparing, false, [AskedPrepare(!Early(q))])
    case (Preparing, PrepareReply(prep)) =>
      (match prep
       case Good(p) => Planned(q, p)
       case Bad => Stepped(Done(Refused), false, [PrepareRefused, Finished(Refused)])
       case PrepRaised => Stepped(Done(CallFailed), false, [Finished(CallFailed)]))
    case (Scattering(p, full, replies), SendFull) =>
      if Early(q) && full.Unsent? then Stepped(Scattering(p, Sent, replies), false, [AskedPrepare(true)]) else Disabled
    case (Scattering(p, full, replies), FullReply(prep)) =>
      if full.Sent? then
        Stepped(Scattering(p, Got(prep), replies), false, FullEvents(prep))
      else Disabled
    case (Scattering(p, full, replies), SendPartial(i)) =>
      if i < |replies| && replies[i].Unsent? then Stepped(Scattering(p, full, replies[i := Sent]), false, [AskedPartial(i)])
      else Disabled
    case (Scattering(p, full, replies), PartialReply(i, reply)) =>
      if i < |replies| && replies[i].Sent? then
        Stepped(Scattering(p, full, replies[i := Got(reply)]), false, if reply.Agg? then [Partial(i, reply.answer)] else [])
      else Disabled
    case (Scattering(p, full, replies), Finish) =>
      if AllIn(replies) && (Early(q) ==> full.Got?) then
        var outcome := Checked(q, p, full, Values(replies));
        Stepped(Done(outcome), false, [Finished(outcome)])
      else Disabled
    case _ => Disabled
  }

  // ---- Any number of queries in one coordinator process ----

  datatype Entry = Entry(run: nat, event: Event)

  /** The capability cache, the phase of every query, and everything that has happened. */
  datatype World = World(cache: set<string>, phases: seq<Phase>, log: seq<Entry>)

  datatype Move = Move(run: nat, act: Act)

  function Start(queries: seq<Query>): World {
    World({}, seq(|queries|, _ => Begin), [])
  }

  predicate Cached(q: Query, cache: set<string>) {
    q.key.Some? && q.key.value in cache
  }

  function Entries(r: nat, events: seq<Event>): seq<Entry> {
    if events == [] then [] else Entries(r, events[..|events| - 1]) + [Entry(r, events[|events| - 1])]
  }

  function After(q: Query, w: World, r: nat, s: Stepped): World
    requires s.Stepped? && r < |w.phases|
  {
    World(if s.remember && q.key.Some? then w.cache + {q.key.value} else w.cache, w.phases[r := s.phase],
      w.log + Entries(r, s.events))
  }

  /** A move that is not enabled changes nothing. */
  function Next(queries: seq<Query>, w: World, m: Move): World {
    if m.run < |queries| && m.run < |w.phases| then
      var s := Step(queries[m.run], w.phases[m.run], Cached(queries[m.run], w.cache), m.act);
      if s.Stepped? then After(queries[m.run], w, m.run, s) else w
    else w
  }

  /** The world after any moves of any queries, in any order, with any replies. */
  function Run(queries: seq<Query>, w: World, moves: seq<Move>): World {
    if moves == [] then w else Next(queries, Run(queries, w, moves[..|moves| - 1]), moves[|moves| - 1])
  }

  function LogOf(queries: seq<Query>, moves: seq<Move>): seq<Entry> {
    Run(queries, Start(queries), moves).log
  }

  // ---- What every log satisfies ----

  /** The same query, or a query to the same published version. */
  predicate SameWorker(queries: seq<Query>, a: nat, b: nat) {
    a == b || (a < |queries| && b < |queries| && queries[a].key.Some? && queries[a].key == queries[b].key)
  }

  ghost predicate AcknowledgedFor(queries: seq<Query>, log: seq<Entry>, r: nat) {
    exists a: nat :: Entry(a, Acknowledged) in log && SameWorker(queries, a, r)
  }

  /** The plan in use came from a preparation: of the first input when the query is early, else of all of them. */
  predicate PlannedFrom(q: Query, log: seq<Entry>, r: nat, p: Prepared) {
    Entry(r, PreparedOk(!Early(q), p)) in log
  }

  ghost predicate AnswerBacked(q: Query, log: seq<Entry>, r: nat, answers: seq<string>, p: Prepared) {
    && PlannedFrom(q, log, r, p)
    && |answers| == Payloads(CountsOf(q, p), q.workers)
    && (forall i :: 0 <= i < |answers| ==> Entry(r, Partial(i, answers[i])) in log)
    && (Early(q) ==> exists f :: Entry(r, PreparedOk(true, f)) in log && SamePlan(f, p))
  }

  /** What must have happened before an event. */
  ghost predicate Allowed(queries: seq<Query>, before: seq<Entry>, e: Entry)
    requires e.run < |queries|
  {
    var q := queries[e.run];
    match e.event
    case AskedPrepare(_) => AcknowledgedFor(queries, before, e.run)
    case AskedPartial(_) =>
      AcknowledgedFor(queries, before, e.run) && (exists p :: PlannedFrom(q, before, e.run, p)) && e !in before
    case Finished(outcome) =>
      && (outcome.Answered? ==> exists p :: AnswerBacked(q, before, e.run, outcome.answers, p))
      && (Entry(e.run, PrepareRefused) in before ==> outcome == Refused)
    case _ => true
  }

  ghost predicate LogSafe(queries: seq<Query>, log: seq<Entry>) {
    forall i :: 0 <= i < |log| ==> log[i].run < |queries| && Allowed(queries, log[..i], log[i])
  }

  // ---- The invariant ----

  predicate NotYetAsked(phase: Phase, i: nat) {
    if phase.Scattering? then i < |phase.replies| && phase.replies[i].Unsent? else !phase.Done?
  }

  ghost predicate RunSafe(queries: seq<Query>, log: seq<Entry>, r: nat, phase: Phase)
    requires r < |queries|
  {
    var q := queries[r];
    && (phase.Trusted? || phase.Preparing? || phase.Scattering? ==> AcknowledgedFor(queries, log, r))
    && (phase.Scattering? ==> ScatterSafe(q, log, r, phase.p, phase.full, phase.replies))
    && (forall i: nat :: NotYetAsked(phase, i) ==> Entry(r, AskedPartial(i)) !in log)
    && (Entry(r, PrepareRefused) in log ==> phase == Done(Refused) || (phase.Scattering? && Early(q) && phase.full == Got(Bad)))
  }

  ghost predicate ScatterSafe(q: Query, log: seq<Entry>, r: nat, p: Prepared, full: Slot<Prep>, replies: seq<Slot<Reply>>) {
    && PlannedFrom(q, log, r, p)
    && |replies| == Payloads(CountsOf(q, p), q.workers)
    && (forall i :: 0 <= i < |replies| ==> SlotSafe(log, r, i, replies[i]))
    && (full.Got? && full.reply.Good? ==> Entry(r, PreparedOk(true, full.reply.p)) in log)
    && (!Early(q) ==> full.Unsent?)
  }

  predicate SlotSafe(log: seq<Entry>, r: nat, i: nat, slot: Slot<Reply>) {
    slot.Got? && slot.reply.Agg? ==> Entry(r, Partial(i, slot.reply.answer)) in log
  }

  ghost predicate Inv(queries: seq<Query>, w: World) {
    && |w.phases| == |queries|
    && LogSafe(queries, w.log)
    && (forall k :: k in w.cache ==> KeyAcknowledged(queries, w.log, k))
    && (forall r :: 0 <= r < |queries| ==> RunSafe(queries, w.log, r, w.phases[r]))
  }

  ghost predicate KeyAcknowledged(queries: seq<Query>, log: seq<Entry>, k: string) {
    exists a: nat :: Entry(a, Acknowledged) in log && a < |queries| && queries[a].key == Some(k)
  }

  lemma {:induction false} EntriesAre(r: nat, events: seq<Event>)
    ensures |Entries(r, events)| == |events| && forall i :: 0 <= i < |events| ==> Entries(r, events)[i] == Entry(r, events[i])
  {
    if events != [] { EntriesAre(r, events[..|events| - 1]); }
  }

  /** A longer log keeps what was known of a query that is not the one that moved. */
  lemma RunSafeGrows(queries: seq<Query>, log: seq<Entry>, more: seq<Entry>, r: nat, phase: Phase)
    requires r < |queries| && RunSafe(queries, log, r, phase) && forall e :: e in more ==> e.run != r
    ensures RunSafe(queries, log + more, r, phase)
  {
    hide Payloads, CountsOf, Early;
    if AcknowledgedFor(queries, log, r) {
      var a: nat :| Entry(a, Acknowledged) in log && SameWorker(queries, a, r);
      assert Entry(a, Acknowledged) in log + more;
    }
  }

  lemma KeyGrows(queries: seq<Query>, log: seq<Entry>, more: seq<Entry>, k: string)
    requires KeyAcknowledged(queries, log, k)
    ensures KeyAcknowledged(queries, log + more, k)
  {
    var a: nat :| Entry(a, Acknowledged) in log && a < |queries| && queries[a].key == Some(k);
    assert Entry(a, Acknowledged) in log + more;
  }

  lemma LogGrows(queries: seq<Query>, log: seq<Entry>, r: nat, events: seq<Event>)
    requires r < |queries| && LogSafe(queries, log)
    requires forall i :: 0 <= i < |events| ==> Allowed(queries, log + Entries(r, events[..i]), Entry(r, events[i]))
    ensures LogSafe(queries, log + Entries(r, events))
    decreases |events|
  {
    hide Allowed;
    if events == [] {
      assert log + Entries(r, events) == log;
    } else {
      var front := events[..|events| - 1];
      forall i | 0 <= i < |front| ensures Allowed(queries, log + Entries(r, front[..i]), Entry(r, front[i])) {
        assert front[..i] == events[..i];
      }
      LogGrows(queries, log, r, front);
      var before, all := log + Entries(r, front), log + Entries(r, events);
      assert all == before + [Entry(r, events[|events| - 1])];
      forall i | 0 <= i < |all| ensures all[i].run < |queries| && Allowed(queries, all[..i], all[i]) {
        if i < |before| { assert all[..i] == before[..i]; } else { assert all[..i] == before; }
      }
    }
  }

  // ---- Each step keeps it ----

  /** What a step of query `r` owes: its events are allowed where they stand, and its new phase is safe. */
  ghost predicate StepSafe(queries: seq<Query>, log: seq<Entry>, r: nat, s: Stepped)
    requires r < |queries| && s.Stepped?
  {
    && (forall i :: 0 <= i < |s.events| ==> Allowed(queries, log + Entries(r, s.events[..i]), Entry(r, s.events[i])))
    && RunSafe(queries, log + Entries(r, s.events), r, s.phase)
    && (s.remember ==> Acknowledged in s.events)
  }

  lemma NoEvent(log: seq<Entry>, r: nat)
    ensures log + Entries(r, []) == log
  {
  }

  lemma OneEvent(log: seq<Entry>, r: nat, e: Event)
    ensures Entries(r, [e][..0]) == [] && Entries(r, [e]) == [Entry(r, e)]
    ensures log + Entries(r, [e][..0]) == log
  {
    assert [e][..0] == [];
    assert Entries(r, [e]) == Entries(r, []) + [Entry(r, e)];
  }

  lemma TwoEvents(log: seq<Entry>, r: nat, d: Event, e: Event)
    ensures log + Entries(r, [d, e][..0]) == log && Entries(r, [d, e][..1]) == [Entry(r, d)]
    ensures Entries(r, [d, e]) == [Entry(r, d), Entry(r, e)]
  {
    assert [d, e][..0] == [] && [d, e][..1] == [d];
    OneEvent(log, r, d);
  }

  lemma Trusting(queries: seq<Query>, log: seq<Entry>, r: nat, cache: set<string>)
    requires r < |queries| && Cached(queries[r], cache) && forall k :: k in cache ==> KeyAcknowledged(queries, log, k)
    ensures AcknowledgedFor(queries, log, r)
  {
    assert KeyAcknowledged(queries, log, queries[r].key.value);
    var a: nat :| Entry(a, Acknowledged) in log && a < |queries| && queries[a].key == Some(queries[r].key.value);
    assert SameWorker(queries, a, r);
  }

  /** Before any partial query: start, negotiation, and the first preparation's request. */
  lemma OpeningStep(queries: seq<Query>, w: World, r: nat, act: Act)
    requires r < |queries| && Inv(queries, w)
    requires act.Start? || act.Negotiated? || act.Prepare?
    ensures var s := Step(queries[r], w.phases[r], Cached(queries[r], w.cache), act);
            s.Stepped? ==> StepSafe(queries, w.log, r, s)
  {
    hide Planned, LogSafe, AnswerBacked, ScatterSafe;
    var s := Step(queries[r], w.phases[r], Cached(queries[r], w.cache), act);
    assert RunSafe(queries, w.log, r, w.phases[r]);
    if s.Stepped? {
      NoEvent(w.log, r);
      if s.events != [] { OneEvent(w.log, r, s.events[0]); }
      if Cached(queries[r], w.cache) { Trusting(queries, w.log, r, w.cache); }
      if act == Negotiated(Yes) {
        assert Entry(r, Acknowledged) in w.log + Entries(r, s.events);
        assert SameWorker(queries, r, r);
      }
    }
  }

  lemma AckGrows(queries: seq<Query>, log: seq<Entry>, more: seq<Entry>, r: nat)
    requires AcknowledgedFor(queries, log, r)
    ensures AcknowledgedFor(queries, log + more, r)
  {
    var a: nat :| Entry(a, Acknowledged) in log && SameWorker(queries, a, r);
    assert Entry(a, Acknowledged) in log + more;
  }

  lemma PlanStep(queries: seq<Query>, w: World, r: nat, prep: Prep)
    requires r < |queries| && Inv(queries, w) && w.phases[r].Preparing?
    ensures var s := Step(queries[r], w.phases[r], Cached(queries[r], w.cache), PrepareReply(prep));
            s.Stepped? && StepSafe(queries, w.log, r, s)
  {
    hide Payloads, CountsOf, Early, LogSafe, AcknowledgedFor, Checked;
    var s := Step(queries[r], w.phases[r], Cached(queries[r], w.cache), PrepareReply(prep));
    assert RunSafe(queries, w.log, r, w.phases[r]);
    if |s.events| == 1 { OneEvent(w.log, r, s.events[0]); } else { TwoEvents(w.log, r, s.events[0], s.events[1]); }
    AckGrows(queries, w.log, Entries(r, s.events), r);
  }

  /** Requests and replies of the full preparation and of the partial queries. */
  lemma ScatterStep(queries: seq<Query>, w: World, r: nat, act: Act)
    requires r < |queries| && Inv(queries, w) && w.phases[r].Scattering?
    requires act.SendFull? || act.FullReply? || act.SendPartial? || act.PartialReply?
    ensures var s := Step(queries[r], w.phases[r], Cached(queries[r], w.cache), act);
            s.Stepped? ==> StepSafe(queries, w.log, r, s)
  {
    hide Payloads, CountsOf, Early, LogSafe, AcknowledgedFor, Checked;
    var s := Step(queries[r], w.phases[r], Cached(queries[r], w.cache), act);
    assert RunSafe(queries, w.log, r, w.phases[r]);
    if s.Stepped? {
      NoEvent(w.log, r);
      if s.events != [] { OneEvent(w.log, r, s.events[0]); }
      AckGrows(queries, w.log, Entries(r, s.events), r);
      assert PlannedFrom(queries[r], w.log, r, w.phases[r].p);
    }
  }

  lemma FinishStep(queries: seq<Query>, w: World, r: nat)
    requires r < |queries| && Inv(queries, w) && w.phases[r].Scattering?
    ensures var s := Step(queries[r], w.phases[r], Cached(queries[r], w.cache), Finish);
            s.Stepped? ==> StepSafe(queries, w.log, r, s)
  {
    hide Payloads, CountsOf, Early, LogSafe, AcknowledgedFor;
    var s := Step(queries[r], w.phases[r], Cached(queries[r], w.cache), Finish);
    assert RunSafe(queries, w.log, r, w.phases[r]);
    if s.Stepped? {
      OneEvent(w.log, r, s.events[0]);
      FinishedWell(queries[r], w.log, r, w.phases[r].p, w.phases[r].full, w.phases[r].replies);
    }
  }

  lemma FinishedWell(q: Query, log: seq<Entry>, r: nat, p: Prepared, full: Slot<Prep>, replies: seq<Slot<Reply>>)
    requires ScatterSafe(q, log, r, p, full, replies) && AllIn(replies) && (Early(q) ==> full.Got?)
    ensures var outcome := Checked(q, p, full, Values(replies));
            outcome.Answered? ==> AnswerBacked(q, log, r, outcome.answers, p)
  {
    hide Payloads, CountsOf, Early;
    var outcome := Checked(q, p, full, Values(replies));
    if outcome.Answered? {
      var values := Values(replies);
      assert outcome == Scattered(values);
      forall i | 0 <= i < |values| ensures Entry(r, Partial(i, outcome.answers[i])) in log {
        assert SlotSafe(log, r, i, replies[i]);
        assert values[i] in values && values[i].Agg?;
      }
      if Early(q) { assert Entry(r, PreparedOk(true, full.reply.p)) in log && SamePlan(full.reply.p, p); }
    }
  }

  lemma AnyStep(queries: seq<Query>, w: World, r: nat, act: Act)
    requires r < |queries| && Inv(queries, w)
    ensures var s := Step(queries[r], w.phases[r], Cached(queries[r], w.cache), act);
            s.Stepped? ==> StepSafe(queries, w.log, r, s)
  {
    hide StepSafe, Planned, Checked, Early, LogSafe, RunSafe;
    var s := Step(queries[r], w.phases[r], Cached(queries[r], w.cache), act);
    if s.Stepped? {
      match act
      case PrepareReply(prep) => PlanStep(queries, w, r, prep);
      case Finish => FinishStep(queries, w, r);
      case Start => OpeningStep(queries, w, r, act);
      case Negotiated(_) => OpeningStep(queries, w, r, act);
      case Prepare => OpeningStep(queries, w, r, act);
      case _ => ScatterStep(queries, w, r, act);
    }
  }

  lemma NextKeeps(queries: seq<Query>, w: World, m: Move)
    requires Inv(queries, w)
    ensures Inv(queries, Next(queries, w, m))
  {
    hide RunSafe, LogSafe, Allowed, KeyAcknowledged, Step;
    if m.run < |queries| {
      var q, r := queries[m.run], m.run;
      var s := Step(q, w.phases[r], Cached(q, w.cache), m.act);
      AnyStep(queries, w, r, m.act);
      if s.Stepped? {
        LogGrows(queries, w.log, r, s.events);
        EntriesAre(r, s.events);
        CacheGrows(queries, w, r, s);
        forall o | 0 <= o < |queries| && o != r ensures RunSafe(queries, w.log + Entries(r, s.events), o, w.phases[o]) {
          RunSafeGrows(queries, w.log, Entries(r, s.events), o, w.phases[o]);
        }
      }
    }
  }

  lemma CacheGrows(queries: seq<Query>, w: World, r: nat, s: Stepped)
    requires r < |queries| && r < |w.phases| && s.Stepped? && (s.remember ==> Acknowledged in s.events)
    requires forall k :: k in w.cache ==> KeyAcknowledged(queries, w.log, k)
    ensures forall k :: k in After(queries[r], w, r, s).cache ==> KeyAcknowledged(queries, w.log + Entries(r, s.events), k)
  {
    hide KeyAcknowledged;
    EntriesAre(r, s.events);
    forall k | k in After(queries[r], w, r, s).cache ensures KeyAcknowledged(queries, w.log + Entries(r, s.events), k) {
      if k in w.cache {
        KeyGrows(queries, w.log, Entries(r, s.events), k);
      } else {
        KeyNoted(queries, w.log, r, s.events, k);
      }
    }
  }

  lemma KeyNoted(queries: seq<Query>, log: seq<Entry>, r: nat, events: seq<Event>, k: string)
    requires r < |queries| && queries[r].key == Some(k) && Acknowledged in events
    ensures KeyAcknowledged(queries, log + Entries(r, events), k)
  {
    EntriesAre(r, events);
    var i :| 0 <= i < |events| && events[i] == Acknowledged;
    assert Entries(r, events)[i] == Entry(r, Acknowledged);
    assert Entry(r, Acknowledged) in Entries(r, events);
  }

  /**
   * Whatever the queries, their interleaving and the workers' replies: no preparation and no partial query is sent before
   * the worker acknowledged the plan version, no partial query before its plan was prepared, and none twice; an answer
   * holds every worker's part and rests on a successful preparation of all inputs with the same plan; and a query with a
   * refused preparation is refused.
   */
  lemma {:induction false} EveryRunIsSafe(queries: seq<Query>, moves: seq<Move>)
    ensures Inv(queries, Run(queries, Start(queries), moves))
    ensures LogSafe(queries, Run(queries, Start(queries), moves).log)
  {
    hide Next, RunSafe, Start;
    if moves == [] {
      StartIsSafe(queries);
    } else {
      EveryRunIsSafe(queries, moves[..|moves| - 1]);
      NextKeeps(queries, Run(queries, Start(queries), moves[..|moves| - 1]), moves[|moves| - 1]);
    }
  }

  lemma LogIsSafe(queries: seq<Query>, moves: seq<Move>)
    ensures LogSafe(queries, LogOf(queries, moves))
  {
    hide Run, LogSafe;
    EveryRunIsSafe(queries, moves);
  }

  lemma StartIsSafe(queries: seq<Query>)
    ensures Inv(queries, Start(queries))
  {
  }

  // ---- The outcome does not depend on the schedule ----

  /** What the worker answers one query. */
  datatype Replies = Replies(first: Prep, full: Prep, answer: nat -> Reply)

  predicate Fits(a: Replies, act: Act) {
    match act
    case Negotiated(ack) => ack == Yes
    case PrepareReply(prep) => prep == a.first
    case FullReply(prep) => prep == a.full
    case PartialReply(i, reply) => reply == a.answer(i)
    case _ => true
  }

  /** The outcome of a query to a worker that acknowledges the plan version and answers `a`. */
  function Verdict(q: Query, a: Replies): Outcome {
    if !q.plain || !q.hasAggregate || a.first.Bad? then Refused
    else if a.first.PrepRaised? then CallFailed
    else
      match Planned(q, a.first.p)
      case Stepped(Done(outcome), _, _) => outcome
      case _ => Checked(q, a.first.p, if Early(q) then Got(a.full) else Unsent, Answers(q, a))
  }

  /** Only what adds up over parts can be sent out. */
  predicate Unmergeable(p: Prepared) {
    exists i :: 0 <= i < |p.aggregates| && p.aggregates[i].fn != "count" && p.aggregates[i].fn != "sum"
             && p.aggregates[i].fn != "min" && p.aggregates[i].fn != "max" && p.aggregates[i].fn != "avg"
  }

  predicate CountsFit(q: Query, p: Prepared) {
    q.counts.Some? ==> |q.counts.value| == |InputsOf(q, p)|
  }

  /** Exactly the plain aggregate queries are answered whose plan can be merged, whose counts are as many as the inputs, whose
      parts are all answered and, when the plan was of the first input, whose full plan is the same one. */
  lemma AnsweredIff(q: Query, a: Replies)
    ensures Verdict(q, a).Answered? <==>
            && q.plain && q.hasAggregate && a.first.Good? && !Unmergeable(a.first.p) && CountsFit(q, a.first.p)
            && (Early(q) ==> a.full.Good? && a.full.p.plan == a.first.p.plan && a.full.p.aggregates == a.first.p.aggregates
                             && a.full.p.groups == a.first.p.groups)
            && forall i :: 0 <= i < Payloads(CountsOf(q, a.first.p), q.workers) ==> a.answer(i).Agg?
    ensures Verdict(q, a).Answered? ==>
            && |Verdict(q, a).answers| == Payloads(CountsOf(q, a.first.p), q.workers)
            && forall i :: 0 <= i < |Verdict(q, a).answers| ==> a.answer(i) == Agg(Verdict(q, a).answers[i])
  {
    hide Early, Payloads, CountsOf, InputsOf;
    if a.first.Good? { AllAnswers(q, a); }
  }

  /** Exactly these are refused: a query of another shape, a preparation refused, a plan that cannot be merged, and, with every
      part answered, a plan that is not the full one. */
  lemma RefusedIff(q: Query, a: Replies)
    ensures Verdict(q, a) == Refused <==>
            || !q.plain || !q.hasAggregate || a.first.Bad?
            || (a.first.Good?
                && (|| Unmergeable(a.first.p)
                    || (CountsFit(q, a.first.p) && Early(q)
                        && (|| a.full.Bad?
                            || (a.full.Good? && !SamePlan(a.full.p, a.first.p)
                                && forall i :: 0 <= i < Payloads(CountsOf(q, a.first.p), q.workers) ==> a.answer(i).Agg?)))))
  {
    hide Early, Payloads, CountsOf, InputsOf, SamePlan;
    if a.first.Good? { AllAnswers(q, a); }
  }

  lemma AllAnswers(q: Query, a: Replies)
    requires a.first.Good?
    ensures Scattered(Answers(q, a)).Answered? <==>
            forall i :: 0 <= i < Payloads(CountsOf(q, a.first.p), q.workers) ==> a.answer(i).Agg?
    ensures Scattered(Answers(q, a)).Answered? ==>
            && |Scattered(Answers(q, a)).answers| == |Answers(q, a)| == Payloads(CountsOf(q, a.first.p), q.workers)
            && forall i :: 0 <= i < |Answers(q, a)| ==> a.answer(i) == Agg(Scattered(Answers(q, a)).answers[i])
  {
    hide Payloads, CountsOf;
    var rs := Answers(q, a);
    if Scattered(rs).Answered? {
      forall i | 0 <= i < |rs| ensures a.answer(i).Agg? { assert rs[i] in rs; }
    }
    if forall i :: 0 <= i < |rs| ==> a.answer(i).Agg? {
      forall r | r in rs ensures r.Agg? {}
    }
  }

  function Answers(q: Query, a: Replies): seq<Reply>
    requires a.first.Good?
  {
    var n := Payloads(CountsOf(q, a.first.p), q.workers);
    seq(n, i requires 0 <= i < n => a.answer(i))
  }

  predicate PhaseFits(q: Query, a: Replies, phase: Phase) {
    match phase
    case Begin => true
    case Done(outcome) => outcome == Verdict(q, a)
    case Scattering(p, full, replies) =>
      && q.plain && q.hasAggregate && a.first == Good(p) && Planned(q, p).phase.Scattering?
      && |replies| == Payloads(CountsOf(q, p), q.workers)
      && (forall i :: 0 <= i < |replies| && replies[i].Got? ==> replies[i].reply == a.answer(i))
      && (full.Got? ==> full.reply == a.full) && (!Early(q) ==> full.Unsent?)
    case _ => q.plain && q.hasAggregate
  }

  lemma StepFits(q: Query, a: Replies, phase: Phase, cached: bool, act: Act)
    requires PhaseFits(q, a, phase) && Fits(a, act)
    ensures var s := Step(q, phase, cached, act); s.Stepped? ==> PhaseFits(q, a, s.phase)
  {
    hide Payloads, CountsOf, Early, Checked;
    var s := Step(q, phase, cached, act);
    if s.Stepped? && act.Finish? {
      assert Values(phase.replies) == Answers(q, a);
    }
  }

  /** However its steps interleave with those of other queries, a query ends with the verdict on its replies. */
  lemma {:induction false} OutcomeIsVerdict(queries: seq<Query>, moves: seq<Move>, r: nat, a: Replies)
    requires r < |queries| && forall m :: m in moves && m.run == r ==> Fits(a, m.act)
    ensures r < |Run(queries, Start(queries), moves).phases|
    ensures PhaseFits(queries[r], a, Run(queries, Start(queries), moves).phases[r])
  {
    hide PhaseFits, Step;
    if moves == [] {
      assert PhaseFits(queries[r], a, Begin) by { BeginFits(queries[r], a); }
    } else {
      var front, last := moves[..|moves| - 1], moves[|moves| - 1];
      assert last in moves;
      OutcomeIsVerdict(queries, front, r, a);
      var w := Run(queries, Start(queries), front);
      if last.run == r { StepFits(queries[r], a, w.phases[r], Cached(queries[r], w.cache), last.act); }
    }
  }

  lemma BeginFits(q: Query, a: Replies)
    ensures PhaseFits(q, a, Begin)
  {
  }

  // ---- The coordinator process ----

  /** The single query `q` is in `phase`, with this capability cache, after `moves`. */
  ghost predicate At(q: Query, w: World, moves: seq<Move>, phase: Phase, cache: set<string>) {
    Run([q], w, moves).phases == [phase] && Run([q], w, moves).cache == cache
  }

  lemma OneMoreMove(q: Query, w: World, moves: seq<Move>, phase: Phase, cache: set<string>, act: Act)
    requires At(q, w, moves, phase, cache)
    ensures var s := Step(q, phase, Cached(q, cache), act);
            s.Stepped? ==>
              At(q, w, moves + [Move(0, act)], s.phase, if s.remember && q.key.Some? then cache + {q.key.value} else cache)
  {
    hide Step;
    assert (moves + [Move(0, act)])[..|moves|] == moves;
  }

  lemma AtBegin(q: Query, w: World)
    requires w.phases == [Begin]
    ensures At(q, w, [], Begin, w.cache)
  {
  }

  lemma AtDone(q: Query, w: World, moves: seq<Move>, outcome: Outcome, cache: set<string>)
    requires At(q, w, moves, Done(outcome), cache)
    ensures Run([q], w, moves).phases == [Done(outcome)] && Run([q], w, moves).cache == cache
  {
  }

  /** The capability cache of a coordinator process, and a query from start to end. */
  class Process {
    var capabilities: set<string>

    constructor ()
      ensures capabilities == {}
    {
      capabilities := {};
    }

    /** Asks the worker unless its published version has already acknowledged. */
    method Negotiate(q: Query, ack: Ack, ghost w: World, ghost moves: seq<Move>)
      returns (failed: Option<Outcome>, ghost after: seq<Move>)
      requires q.plain && q.hasAggregate && At(q, w, moves, Begin, capabilities)
      modifies this
      ensures capabilities == old(capabilities) + if failed.None? && q.key.Some? then {q.key.value} else {}
      ensures failed.None? <==> Cached(q, old(capabilities)) || ack == Yes
      ensures At(q, w, after, if failed.None? then Trusted else Done(failed.value), capabilities)
    {
      hide At;
      OneMoreMove(q, w, moves, Begin, capabilities, Act.Start);
      after := moves + [Move(0, Act.Start)];
      failed := None;
      if Cached(q, capabilities) {
        assert capabilities + {q.key.value} == capabilities;
        return;
      }
      OneMoreMove(q, w, after, Negotiating, capabilities, Negotiated(ack));
      after := after + [Move(0, Negotiated(ack))];
      if ack != Yes {
        failed := Some(if ack == No then Refused else CallFailed);
      } else if q.key.Some? {
        capabilities := capabilities + {q.key.value};
      }
    }

    /** The partial queries, one after another; every schedule of the machine ends with the same outcome. */
    method Scatter(q: Query, n: nat, answer: nat -> Reply, ghost w: World, ghost moves: seq<Move>, ghost p: Prepared,
        ghost full: Slot<Prep>)
      returns (replies: seq<Reply>, ghost after: seq<Move>)
      requires At(q, w, moves, Scattering(p, full, seq(n, _ => Unsent)), capabilities)
      ensures |replies| == n && forall i :: 0 <= i < n ==> replies[i] == answer(i)
      ensures At(q, w, after, Scattering(p, full, seq(n, i requires 0 <= i < n => Got(answer(i)))), capabilities)
    {
      hide At;
      replies, after := [], moves;
      ghost var slots: seq<Slot<Reply>> := seq(n, _ => Unsent);
      for i := 0 to n
        invariant |replies| == i && forall j :: 0 <= j < i ==> replies[j] == answer(j)
        invariant |slots| == n && forall j :: 0 <= j < n ==> slots[j] == if j < i then Got(answer(j)) else Unsent
        invariant At(q, w, after, Scattering(p, full, slots), capabilities)
      {
        OneMoreMove(q, w, after, Scattering(p, full, slots), capabilities, SendPartial(i));
        after := after + [Move(0, SendPartial(i))];
        var reply := answer(i);
        OneMoreMove(q, w, after, Scattering(p, full, slots[i := Sent]), capabilities, PartialReply(i, reply));
        after := after + [Move(0, PartialReply(i, reply))];
        slots := slots[i := Sent][i := Got(reply)];
        replies := replies + [reply];
      }
      assert slots == seq(n, i requires 0 <= i < n => Got(answer(i)));
    }

    /** The scatter's outcome: the first failed call, else the first reply without an answer, else the answers. */
    method Collect(replies: seq<Reply>) returns (outcome: Outcome)
      ensures outcome == Scattered(replies)
    {
      for i := 0 to |replies|
        invariant Raised !in replies[..i]
      {
        if replies[i].Raised? { return CallFailed; }
      }
      assert replies[..|replies|] == replies;
      var answers := [];
      for i := 0 to |replies|
        invariant |answers| == i && Other !in replies[..i] && forall j :: 0 <= j < i ==> answers[j] == replies[j].answer
      {
        if replies[i].Other? { return WorkerFailed; }
        answers := answers + [replies[i].answer];
      }
      outcome := Answered(answers);
    }

    /** The checks on the preparation, the scatter with the full preparation beside it, and the decision. */
    method AfterPreparation(q: Query, a: Replies, ghost w: World, ghost moves: seq<Move>)
      returns (outcome: Outcome, ghost after: seq<Move>)
      requires a.first.Good? && At(q, w, moves, Planned(q, a.first.p).phase, capabilities)
      ensures At(q, w, after, Done(outcome), capabilities)
      ensures q.plain && q.hasAggregate ==> outcome == Verdict(q, a)
    {
      hide At, Payloads, Early, Scattered;
      after := moves;
      var p := a.first.p;
      for i := 0 to |p.aggregates|
        invariant forall j :: 0 <= j < i ==> p.aggregates[j].fn in MERGEABLE
      {
        if p.aggregates[i].fn !in MERGEABLE { return Refused, after; }
      }
      if q.counts.Some? && |q.counts.value| != |InputsOf(q, p)| { return BadCounts, after; }
      var n := Payloads(CountsOf(q, p), q.workers);
      ghost var full: Slot<Prep> := Unsent;
      if Early(q) {
        OneMoreMove(q, w, after, Scattering(p, full, seq(n, _ => Unsent)), capabilities, SendFull);
        after := after + [Move(0, SendFull)];
        OneMoreMove(q, w, after, Scattering(p, Sent, seq(n, _ => Unsent)), capabilities, FullReply(a.full));
        after := after + [Move(0, FullReply(a.full))];
        full := Got(a.full);
      }
      var replies;
      replies, after := Scatter(q, n, a.answer, w, after, p, full);
      ghost var slots := seq(n, i requires 0 <= i < n => Got(a.answer(i)));
      assert Values(slots) == replies == Answers(q, a);
      OneMoreMove(q, w, after, Scattering(p, full, slots), capabilities, Finish);
      after := after + [Move(0, Finish)];
      if Early(q) && a.full.Bad? { return Refused, after; }
      if Early(q) && a.full.PrepRaised? { return CallFailed, after; }
      outcome := Collect(replies);
      if outcome.Answered? && Early(q) && !SamePlan(a.full.p, p) { outcome := Refused; }
    }

    /** A query to a worker that answers `ack` and `a`, on the schedule of one call after another. */
    method RunQuery(q: Query, ack: Ack, a: Replies) returns (outcome: Outcome, ghost moves: seq<Move>)
      modifies this
      ensures var v := Run([q], World(old(capabilities), [Begin], []), moves);
              v.phases == [Done(outcome)] && v.cache == capabilities
      ensures Cached(q, old(capabilities)) || ack == Yes ==> outcome == Verdict(q, a)
      ensures capabilities == old(capabilities)
           || (ack == Yes && q.key.Some? && capabilities == old(capabilities) + {q.key.value})
    {
      hide At, Run, Payloads, Planned, Checked, Early;
      ghost var w := World(capabilities, [Begin], []);
      moves := [];
      AtBegin(q, w);
      if !q.plain || !q.hasAggregate {
        OneMoreMove(q, w, moves, Begin, capabilities, Act.Start);
        moves := moves + [Move(0, Act.Start)];
        AtDone(q, w, moves, Refused, capabilities);
        return Refused, moves;
      }
      var failed;
      failed, moves := Negotiate(q, ack, w, moves);
      if failed.Some? {
        AtDone(q, w, moves, failed.value, capabilities);
        return failed.value, moves;
      }
      OneMoreMove(q, w, moves, Trusted, capabilities, Prepare);
      moves := moves + [Move(0, Prepare)];
      OneMoreMove(q, w, moves, Preparing, capabilities, PrepareReply(a.first));
      moves := moves + [Move(0, PrepareReply(a.first))];
      match a.first {
      case Good(_) => outcome, moves := AfterPreparation(q, a, w, moves);
      case Bad => outcome := Refused;
      case PrepRaised => outcome := CallFailed;
      }
      AtDone(q, w, moves, outcome, capabilities);
    }
  }
}
