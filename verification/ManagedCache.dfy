/**
 * The managed resource cache (core/shared/lifecycle.ts), one method per moment at which its
 * code runs: the synchronous parts of get and close, and the continuations the promise jobs
 * resume. Between two of them any other may run, so every interleaving is a run of events.
 */
module ManagedCache {
  import opened Common

  /** What became of the promise a get created: its factory call has not settled, or how it did. */
  datatype Factory = Pending | Ready | Failed

  datatype Disposal = Untouched | Disposing | Disposed | DisposeFailed

  /** One `created` promise with the resource it resolves to; disposals counts calls of the disposer. */
  datatype Generation = Generation(factory: Factory, disposal: Disposal, disposals: nat)

  datatype Phase = AwaitingResource | AwaitingDisposer | Fulfilled | Rejected

  /** One closeGeneration call. */
  datatype Operation = Operation(acquired: Option<nat>, phase: Phase)

  datatype Outcome = Waiting(operation: nat) | Holding(generation: nat) | Broken

  /** One get call, and how many operations had been started when it was made. */
  datatype Caller = Caller(since: nat, outcome: Outcome)

  datatype Cache = Cache(
    generations: seq<Generation>,
    operations: seq<Operation>,
    callers: seq<Caller>,
    current: Option<nat>,
    closing: Option<nat>)

  predicate Settled(phase: Phase) {
    phase == Fulfilled || phase == Rejected
  }

  const FRESH := Generation(Pending, Untouched, 0)

  // ---------------------------------------------------------------- events

  datatype Event =
    | Get
    | ResumeGet(caller: nat)
    | FactorySettles(generation: nat, ok: bool)
    | RunCatch(generation: nat)
    | Close
    | ResumeClose(operation: nat)
    | DisposerSettles(operation: nat, ok: bool)
    | ClearClosing(operation: nat)

  predicate Enabled(c: Cache, event: Event) {
    match event
    case Get => true
    case ResumeGet(k) =>
      && k < |c.callers| && c.callers[k].outcome.Waiting?
      && c.callers[k].outcome.operation < |c.operations|
      && Settled(c.operations[c.callers[k].outcome.operation].phase)
    case FactorySettles(g, _) => g < |c.generations| && c.generations[g].factory == Pending
    case RunCatch(g) => g < |c.generations| && c.generations[g].factory == Failed
    case Close => true
    case ResumeClose(o) =>
      && o < |c.operations| && c.operations[o].phase == AwaitingResource
      && c.operations[o].acquired.Some? && c.operations[o].acquired.value < |c.generations|
      && c.generations[c.operations[o].acquired.value].factory != Pending
    case DisposerSettles(o, _) =>
      && o < |c.operations| && c.operations[o].phase == AwaitingDisposer
      && c.operations[o].acquired.Some? && c.operations[o].acquired.value < |c.generations|
    case ClearClosing(o) => o < |c.operations| && Settled(c.operations[o].phase)
  }

  /** The rest of get once it is not waiting, or its next wait: the outcome and the cache without the caller. */
  function Acquire(c: Cache): (Outcome, Cache) {
    if c.closing.Some? then (Waiting(c.closing.value), c)
    else if c.current.Some? then (Holding(c.current.value), c)
    else (Holding(|c.generations|),
          c.(generations := c.generations + [FRESH], current := Some(|c.generations|)))
  }

  function Step(c: Cache, event: Event): Cache
    requires Enabled(c, event)
  {
    match event
    case Get =>
      var (outcome, c') := Acquire(c);
      c'.(callers := c'.callers + [Caller(|c.operations|, outcome)])
    case ResumeGet(k) =>
      if c.operations[c.callers[k].outcome.operation].phase == Rejected then
        c.(callers := c.callers[k := c.callers[k].(outcome := Broken)])
      else
        var (outcome, c') := Acquire(c);
        c'.(callers := c'.callers[k := c.callers[k].(outcome := outcome)])
    case FactorySettles(g, ok) =>
      c.(generations := c.generations[g := c.generations[g].(factory := if ok then Ready else Failed)])
    case RunCatch(g) => if c.current == Some(g) then c.(current := None) else c
    case Close =>
      if c.closing.Some? then c
      else
        c.(current := None,
           operations := c.operations + [Operation(c.current, if c.current.None? then Fulfilled else AwaitingResource)],
           closing := Some(|c.operations|))
    case ResumeClose(o) =>
      var g := c.operations[o].acquired.value;
      if c.generations[g].factory == Failed then
        c.(operations := c.operations[o := c.operations[o].(phase := Rejected)])
      else
        c.(operations := c.operations[o := c.operations[o].(phase := AwaitingDisposer)],
           generations := c.generations[g :=
             c.generations[g].(disposal := Disposing, disposals := c.generations[g].disposals + 1)])
    case DisposerSettles(o, ok) =>
      var g := c.operations[o].acquired.value;
      c.(operations := c.operations[o := c.operations[o].(phase := if ok then Fulfilled else Rejected)],
         generations := c.generations[g :=
           c.generations[g].(disposal := if ok then Disposed else DisposeFailed)])
    case ClearClosing(o) => if c.closing == Some(o) then c.(closing := None) else c
  }

  /** The closure variables of createManagedCache, with the promises they refer to. */
  class Closure {
    var generations: seq<Generation>
    var operations: seq<Operation>
    var callers: seq<Caller>
    var current: Option<nat>
    var closing: Option<nat>

    function Contents(): Cache
      reads this
    {
      Cache(generations, operations, callers, current, closing)
    }

    constructor ()
      ensures Contents() == EMPTY
    {
      generations, operations, callers := [], [], [];
      current, closing := None, None;
    }

    /** get after its loop over `closing`, as far as its own code runs. */
    method AcquireCurrent() returns (outcome: Outcome)
      modifies this
      ensures outcome == Acquire(old(Contents())).0 && Contents() == Acquire(old(Contents())).1
    {
      if closing.Some? { return Waiting(closing.value); }
      if current.Some? { return Holding(current.value); }
      var created := |generations|;
      generations := generations + [FRESH];
      current := Some(created);
      return Holding(created);
    }

    method Get() returns (caller: nat)
      modifies this
      ensures Contents() == Step(old(Contents()), Event.Get) && caller == |old(callers)|
    {
      caller := |callers|;
      var since := |operations|;
      var outcome := AcquireCurrent();
      callers := callers + [Caller(since, outcome)];
    }

    method ResumeGet(caller: nat)
      requires Enabled(Contents(), Event.ResumeGet(caller))
      modifies this
      ensures Contents() == Step(old(Contents()), Event.ResumeGet(caller))
    {
      var outcome := Broken;
      if operations[callers[caller].outcome.operation].phase != Rejected {
        outcome := AcquireCurrent();
      }
      callers := callers[caller := callers[caller].(outcome := outcome)];
    }

    /** The callback of created.catch. */
    method RunCatch(created: nat)
      requires Enabled(Contents(), Event.RunCatch(created))
      modifies this
      ensures Contents() == Step(old(Contents()), Event.RunCatch(created))
    {
      if current == Some(created) { current := None; }
    }

    method Close() returns (operation: nat)
      modifies this
      ensures Contents() == Step(old(Contents()), Event.Close)
      ensures closing == Some(operation)
    {
      if closing.Some? { return closing.value; }
      var acquired := current;
      current := None;
      operation := |operations|;
      operations := operations + [Operation(acquired, if acquired.None? then Fulfilled else AwaitingResource)];
      closing := Some(operation);
    }

    /** closeGeneration after `await acquired`. */
    method ResumeClose(operation: nat)
      requires Enabled(Contents(), Event.ResumeClose(operation))
      modifies this
      ensures Contents() == Step(old(Contents()), Event.ResumeClose(operation))
    {
      var g := operations[operation].acquired.value;
      if generations[g].factory == Failed {
        operations := operations[operation := operations[operation].(phase := Rejected)];
      } else {
        operations := operations[operation := operations[operation].(phase := AwaitingDisposer)];
        generations := generations[
          g := generations[g].(disposal := Disposing, disposals := generations[g].disposals + 1)];
      }
    }

    method ClearClosing(operation: nat)
      requires Enabled(Contents(), Event.ClearClosing(operation))
      modifies this
      ensures Contents() == Step(old(Contents()), Event.ClearClosing(operation))
    {
      if closing == Some(operation) { closing := None; }
    }
  }

  const EMPTY := Cache([], [], [], None, None)

  // ---------------------------------------------------------------- runs

  /** An event that is not enabled does not happen. */
  function Run(events: seq<Event>): Cache {
    if events == [] then EMPTY else
    var before, event := Run(events[..|events| - 1]), events[|events| - 1];
    if Enabled(before, event) then Step(before, event) else before
  }

  ghost predicate AcquiredBy(c: Cache, g: int, o: int) {
    0 <= o < |c.operations| && c.operations[o].acquired.Some? && c.operations[o].acquired.value == g
  }

  /** References point at things that exist, and a closing cache has no current generation. */
  ghost predicate WellFormed(c: Cache) {
    && (c.current.Some? ==> c.current.value < |c.generations|)
    && (c.closing.Some? ==> c.closing.value < |c.operations| && c.current.None?)
    && (forall o, g | AcquiredBy(c, g, o) :: 0 <= g < |c.generations| && !(c.current.Some? && c.current.value == g))
    && (forall o | 0 <= o < |c.operations| && !Settled(c.operations[o].phase) :: c.closing == Some(o))
    && (forall o | 0 <= o < |c.operations| && c.operations[o].phase != Fulfilled :: c.operations[o].acquired.Some?)
  }

  /** A generation is acquired at most once, and one that is neither current nor acquired has failed. */
  ghost predicate Owned(c: Cache) {
    && (forall o, o', g | AcquiredBy(c, g, o) && AcquiredBy(c, g, o') :: o == o')
    && (forall g | 0 <= g < |c.generations| && c.generations[g].factory != Failed ::
          c.current == Some(g) || exists o :: AcquiredBy(c, g, o))
    && (forall g | 0 <= g < |c.generations| && c.generations[g].disposal != Untouched ::
         exists o :: AcquiredBy(c, g, o))
  }

  /** The disposal of an acquired generation mirrors the phase of the operation that acquired it. */
  ghost predicate Mirrors(c: Cache) {
    && (forall o, g | AcquiredBy(c, g, o) && 0 <= g < |c.generations| ::
          var generation, phase := c.generations[g], c.operations[o].phase;
          && (generation.disposal == Untouched <==> phase == AwaitingResource || generation.factory == Failed)
          && (generation.disposal == Disposing <==> phase == AwaitingDisposer)
          && (generation.disposal == Disposed <==> phase == Fulfilled)
          && (generation.disposal == DisposeFailed ==> phase == Rejected))
    && (forall g | 0 <= g < |c.generations| ::
          && (c.generations[g].disposal != Untouched ==> c.generations[g].factory == Ready)
          && c.generations[g].disposals == if c.generations[g].disposal == Untouched then 0 else 1)
  }

  /** Whoever holds a generation asked for it before it was acquired for closing. */
  ghost predicate HeldBeforeClosing(c: Cache) {
    forall k | 0 <= k < |c.callers| ::
      && c.callers[k].since <= |c.operations|
      && (c.callers[k].outcome.Holding? ==>
            && c.callers[k].outcome.generation < |c.generations|
            && forall o | AcquiredBy(c, c.callers[k].outcome.generation, o) :: c.callers[k].since <= o)
  }

  ghost predicate Inv(c: Cache) {
    WellFormed(c) && Owned(c) && Mirrors(c) && HeldBeforeClosing(c)
  }

  ghost predicate SameOwners(c: Cache, c': Cache) {
    forall o, g :: AcquiredBy(c', g, o) <==> AcquiredBy(c, g, o)
  }

  lemma AcquireKeepsInv(c: Cache)
    requires Inv(c)
    ensures Inv(Acquire(c).1)
    ensures var (outcome, c') := Acquire(c);
            outcome.Holding? ==>
              outcome.generation < |c'.generations| && forall o :: !AcquiredBy(c', outcome.generation, o)
  {
    var c' := Acquire(c).1;
    assert SameOwners(c, c');
    forall g | 0 <= g < |c'.generations|
      ensures c'.generations[g] == if g < |c.generations| then c.generations[g] else FRESH
    {
    }
    assert Owned(c');
    assert Mirrors(c');
  }

  lemma GetKeepsInv(c: Cache, event: Event)
    requires Inv(c) && Enabled(c, event) && (event.Get? || event.ResumeGet?)
    ensures Inv(Step(c, event))
  {
    var c' := Step(c, event);
    var acquired := Acquire(c).1;
    AcquireKeepsInv(c);
    assert SameOwners(acquired, c) && SameOwners(acquired, c');
  }

  lemma FactoryKeepsInv(c: Cache, event: Event)
    requires Inv(c) && Enabled(c, event) && (event.FactorySettles? || event.RunCatch?)
    ensures Inv(Step(c, event))
  {
    var c' := Step(c, event);
    assert SameOwners(c, c');
  }

  lemma CloseKeepsInv(c: Cache)
    requires Inv(c)
    ensures Inv(Step(c, Close))
  {
    var c' := Step(c, Close);
    if c' != c {
      forall o, g
        ensures AcquiredBy(c', g, o) <==>
                AcquiredBy(c, g, o) || (o == |c.operations| && c.current.Some? && c.current.value == g)
      {
      }
      forall g | 0 <= g < |c'.generations| && c'.generations[g].factory != Failed
        ensures exists o :: AcquiredBy(c', g, o)
      {
        if c.current == Some(g) {
          assert AcquiredBy(c', g, |c.operations|);
        } else {
          var o :| AcquiredBy(c, g, o);
          assert AcquiredBy(c', g, o);
        }
      }
    }
  }

  lemma ClearClosingKeepsInv(c: Cache, event: Event)
    requires Inv(c) && Enabled(c, event) && event.ClearClosing?
    ensures Inv(Step(c, event))
  {
    assert SameOwners(c, Step(c, event));
  }

  lemma ResumeCloseKeepsOwners(c: Cache, event: Event)
    requires Inv(c) && Enabled(c, event) && event.ResumeClose?
    ensures SameOwners(c, Step(c, event))
    ensures WellFormed(Step(c, event)) && Owned(Step(c, event))
  {
    assert SameOwners(c, Step(c, event));
    assert AcquiredBy(c, c.operations[event.operation].acquired.value, event.operation);
  }

  lemma ResumeCloseKeepsMirrors(c: Cache, event: Event)
    requires Inv(c) && Enabled(c, event) && event.ResumeClose? && SameOwners(c, Step(c, event))
    ensures Mirrors(Step(c, event))
  {
    assert AcquiredBy(c, c.operations[event.operation].acquired.value, event.operation);
  }

  lemma ResumeCloseKeepsInv(c: Cache, event: Event)
    requires Inv(c) && Enabled(c, event) && event.ResumeClose?
    ensures Inv(Step(c, event))
  {
    ResumeCloseKeepsOwners(c, event);
    ResumeCloseKeepsMirrors(c, event);
  }

  lemma DisposerKeepsInv(c: Cache, event: Event)
    requires Inv(c) && Enabled(c, event) && event.DisposerSettles?
    ensures Inv(Step(c, event))
  {
    assert SameOwners(c, Step(c, event));
    assert AcquiredBy(c, c.operations[event.operation].acquired.value, event.operation);
  }

  lemma StepKeepsInv(c: Cache, event: Event)
    requires Inv(c) && Enabled(c, event)
    ensures Inv(Step(c, event))
  {
    match event
    case Get => GetKeepsInv(c, event);
    case ResumeGet(_) => GetKeepsInv(c, event);
    case FactorySettles(_, _) => FactoryKeepsInv(c, event);
    case RunCatch(_) => FactoryKeepsInv(c, event);
    case Close => CloseKeepsInv(c);
    case ResumeClose(_) => ResumeCloseKeepsInv(c, event);
    case DisposerSettles(_, _) => DisposerKeepsInv(c, event);
    case ClearClosing(_) => ClearClosingKeepsInv(c, event);
  }

  lemma {:induction false} RunKeepsInv(events: seq<Event>)
    ensures Inv(Run(events))
  {
    if events != [] {
      var before, event := Run(events[..|events| - 1]), events[|events| - 1];
      RunKeepsInv(events[..|events| - 1]);
      if Enabled(before, event) {
        StepKeepsInv(before, event);
      }
    }
  }

  // ---------------------------------------------------------------- the guarantees

  /** Its factory may still deliver, or its resource exists and the disposer has not settled. */
  ghost predicate Live(generation: Generation) {
    || generation.factory == Pending
    || (generation.factory == Ready && (generation.disposal == Untouched || generation.disposal == Disposing))
  }

  /** At any moment of any run at most one generation is live. */
  lemma AtMostOneLive(events: seq<Event>, g: nat, h: nat)
    requires var c := Run(events);
             g < |c.generations| && h < |c.generations| && Live(c.generations[g]) && Live(c.generations[h])
    ensures g == h
  {
    RunKeepsInv(events);
    var c := Run(events);
    if c.current != Some(g) {
      var o :| AcquiredBy(c, g, o);
      assert c.closing == Some(o);
    }
    if c.current != Some(h) {
      var o :| AcquiredBy(c, h, o);
      assert c.closing == Some(o);
    }
  }

  /** A resource is given to the disposer at most once, and never unless the factory delivered it. */
  lemma DisposedAtMostOnce(events: seq<Event>, g: nat)
    requires g < |Run(events).generations|
    ensures Run(events).generations[g].disposals <= 1
    ensures Run(events).generations[g].disposals == 1 ==> Run(events).generations[g].factory == Ready
  {
    RunKeepsInv(events);
  }

  /** A get made after a close began never holds the generation that close took. */
  lemma LateGetNeverHoldsClosed(events: seq<Event>, k: nat, o: nat)
    requires var c := Run(events);
             && k < |c.callers| && c.callers[k].outcome.Holding?
             && AcquiredBy(c, c.callers[k].outcome.generation, o)
    ensures Run(events).callers[k].since <= o
  {
    RunKeepsInv(events);
  }

  /**
   * A generation is current until a close takes it or its own factory's failure clears it: whatever else happens,
   * the late failure of an older generation among it, every later get joins it.
   */
  lemma {:induction false} CurrentStaysUntilTaken(events: seq<Event>, more: seq<Event>, h: nat)
    requires Run(events).current == Some(h)
    requires forall n | 0 <= n < |more| :: more[n] != Close && more[n] != RunCatch(h)
    ensures Run(events + more).current == Some(h)
  {
    if more == [] {
      assert events + more == events;
    } else {
      var n := |more| - 1;
      CurrentStaysUntilTaken(events, more[..n], h);
      RunKeepsInv(events + more[..n]);
      assert (events + more)[..|events| + n] == events + more[..n];
    }
  }

  // ---------------------------------------------------------------- two resources at once

  ghost predicate Undisposed(generation: Generation) {
    generation.factory == Ready && generation.disposal != Disposed
  }

  ghost predicate TwoUndisposed(c: Cache) {
    exists g, h | 0 <= g < h < |c.generations| :: Undisposed(c.generations[g]) && Undisposed(c.generations[h])
  }

  ghost predicate HasFailedDisposal(c: Cache) {
    exists g | 0 <= g < |c.generations| :: c.generations[g].disposal == DisposeFailed
  }

  predicate NoDisposerFails(events: seq<Event>) {
    forall n | 0 <= n < |events| :: !(events[n].DisposerSettles? && !events[n].ok)
  }

  /** Event n of a run is a disposer's failure. */
  predicate DisposerFailsAt(events: seq<Event>, n: nat)
    requires n < |events|
  {
    Enabled(Run(events[..n]), events[n]) && events[n].DisposerSettles? && !events[n].ok
  }

  /** Two resources are undisposed at once only if a disposer failed on one of them. */
  lemma UndisposedTwiceMeansDisposerFailed(events: seq<Event>)
    requires TwoUndisposed(Run(events))
    ensures HasFailedDisposal(Run(events))
  {
    var c := Run(events);
    var g, h :| 0 <= g < h < |c.generations| && Undisposed(c.generations[g]) && Undisposed(c.generations[h]);
    if Live(c.generations[g]) && Live(c.generations[h]) {
      AtMostOneLive(events, g, h);
    }
  }

  /** What one step does to the failed disposals. */
  lemma FailedDisposalStep(c: Cache, event: Event)
    requires Inv(c) && Enabled(c, event)
    ensures HasFailedDisposal(Step(c, event)) <==> HasFailedDisposal(c) || (event.DisposerSettles? && !event.ok)
  {
    var c' := Step(c, event);
    if event.DisposerSettles? || event.ResumeClose? {
      assert AcquiredBy(c, c.operations[event.operation].acquired.value, event.operation);
    }
    if event.DisposerSettles? && !event.ok {
      assert c'.generations[c.operations[event.operation].acquired.value].disposal == DisposeFailed;
    }
    if g :| 0 <= g < |c.generations| && c.generations[g].disposal == DisposeFailed {
      assert c'.generations[g].disposal == DisposeFailed;
    }
  }

  predicate SomeDisposerFails(events: seq<Event>) {
    exists n | 0 <= n < |events| :: DisposerFailsAt(events, n)
  }

  lemma FailsInFront(events: seq<Event>, n: nat)
    requires n < |events| - 1
    ensures DisposerFailsAt(events[..|events| - 1], n) <==> DisposerFailsAt(events, n)
  {
    assert events[..|events| - 1][..n] == events[..n];
  }

  lemma SomeFailsSnoc(events: seq<Event>)
    requires events != []
    ensures SomeDisposerFails(events) <==>
            SomeDisposerFails(events[..|events| - 1]) || DisposerFailsAt(events, |events| - 1)
  {
    var front := events[..|events| - 1];
    if n :| 0 <= n < |front| && DisposerFailsAt(front, n) {
      FailsInFront(events, n);
    }
    if n :| 0 <= n < |front| && DisposerFailsAt(events, n) {
      FailsInFront(events, n);
    }
  }

  /** A failed disposal stays on record, and each is some disposer's failure in the run. */
  lemma {:induction false} FailedDisposalIff(events: seq<Event>)
    ensures HasFailedDisposal(Run(events)) <==> SomeDisposerFails(events)
  {
    if events != [] {
      var front, last := events[..|events| - 1], events[|events| - 1];
      FailedDisposalIff(front);
      SomeFailsSnoc(events);
      RunKeepsInv(front);
      if Enabled(Run(front), last) {
        FailedDisposalStep(Run(front), last);
      }
    }
  }

  /** Without further failures a run keeps its failed disposals as they are. */
  lemma {:induction false} NoNewFailedDisposal(events: seq<Event>, more: seq<Event>)
    requires NoDisposerFails(more)
    ensures HasFailedDisposal(Run(events + more)) <==> HasFailedDisposal(Run(events))
  {
    if more == [] {
      assert events + more == events;
    } else {
      var n := |more| - 1;
      var front := events + more[..n];
      NoNewFailedDisposal(events, more[..n]);
      assert events + more == front + [more[n]];
      RunKeepsInv(front);
      RunLast(front, more[n]);
      if Enabled(Run(front), more[n]) {
        FailedDisposalStep(Run(front), more[n]);
      }
    }
  }

  lemma RunLast(events: seq<Event>, event: Event)
    ensures Run(events + [event]) == if Enabled(Run(events), event) then Step(Run(events), event) else Run(events)
  {
    assert (events + [event])[..|events|] == events;
  }

  /** A further run in which no disposer fails and that ends with two undisposed resources. */
  ghost predicate LeadsToTwo(events: seq<Event>, more: seq<Event>) {
    NoDisposerFails(more) && TwoUndisposed(Run(events + more))
  }

  lemma LeadsAfter(events: seq<Event>, event: Event, more: seq<Event>)
    requires LeadsToTwo(events + [event], more) && !(event.DisposerSettles? && !event.ok)
    ensures LeadsToTwo(events, [event] + more)
  {
    assert events + ([event] + more) == events + [event] + more;
  }

  lemma AlreadyTwo(events: seq<Event>, g: nat, h: nat)
    requires g < |Run(events).generations| && h < |Run(events).generations| && g != h
    requires Undisposed(Run(events).generations[g]) && Undisposed(Run(events).generations[h])
    ensures LeadsToTwo(events, [])
  {
    assert events + [] == events;
  }

  /** The factory of h delivers while g is undisposed. */
  lemma DeliverySecond(events: seq<Event>, g: nat, h: nat) returns (more: seq<Event>)
    requires var c := Run(events);
             && g < |c.generations| && h < |c.generations| && g != h && Undisposed(c.generations[g])
             && c.generations[h].factory == Pending && c.generations[h].disposal == Untouched
    ensures LeadsToTwo(events, more)
  {
    var event := FactorySettles(h, true);
    RunLast(events, event);
    AlreadyTwo(events + [event], g, h);
    LeadsAfter(events, event, []);
    more := [event] + [];
  }

  /** A get on an idle cache creates a second resource. */
  lemma IdleSecond(events: seq<Event>, g: nat) returns (more: seq<Event>)
    requires var c := Run(events);
             g < |c.generations| && Undisposed(c.generations[g]) && c.current.None? && c.closing.None?
    ensures LeadsToTwo(events, more)
  {
    RunLast(events, Get);
    more := DeliverySecond(events + [Get], g, |Run(events).generations|);
    LeadsAfter(events, Get, more);
    more := [Get] + more;
  }

  lemma CurrentSecond(events: seq<Event>, g: nat) returns (more: seq<Event>)
    requires var c := Run(events);
             g < |c.generations| && c.generations[g].disposal == DisposeFailed && c.current.Some?
    ensures LeadsToTwo(events, more)
  {
    RunKeepsInv(events);
    var c := Run(events);
    var h := c.current.value;
    var o :| AcquiredBy(c, g, o);
    if c.generations[h].factory == Failed {
      RunLast(events, RunCatch(h));
      more := IdleSecond(events + [RunCatch(h)], g);
      LeadsAfter(events, RunCatch(h), more);
      more := [RunCatch(h)] + more;
    } else if c.generations[h].factory == Pending {
      more := DeliverySecond(events, g, h);
    } else {
      AlreadyTwo(events, g, h);
      more := [];
    }
  }

  lemma SettledSecond(events: seq<Event>, g: nat, o: nat) returns (more: seq<Event>)
    requires var c := Run(events);
             && g < |c.generations| && Undisposed(c.generations[g])
             && c.closing == Some(o) && o < |c.operations| && Settled(c.operations[o].phase) && c.current.None?
    ensures LeadsToTwo(events, more)
  {
    RunLast(events, ClearClosing(o));
    more := IdleSecond(events + [ClearClosing(o)], g);
    LeadsAfter(events, ClearClosing(o), more);
    more := [ClearClosing(o)] + more;
  }

  lemma ClosingSecond(events: seq<Event>, g: nat) returns (more: seq<Event>)
    requires var c := Run(events);
             g < |c.generations| && c.generations[g].disposal == DisposeFailed && c.closing.Some?
    ensures LeadsToTwo(events, more)
  {
    RunKeepsInv(events);
    var c := Run(events);
    var o := c.closing.value;
    if Settled(c.operations[o].phase) {
      more := SettledSecond(events, g, o);
    } else {
      var a := c.operations[o].acquired.value;
      assert AcquiredBy(c, a, o);
      var failed :| AcquiredBy(c, g, failed);
      if c.generations[a].factory == Failed {
        RunLast(events, ResumeClose(o));
        more := SettledSecond(events + [ResumeClose(o)], g, o);
        LeadsAfter(events, ResumeClose(o), more);
        more := [ResumeClose(o)] + more;
      } else if c.generations[a].factory == Pending {
        more := DeliverySecond(events, g, a);
      } else {
        AlreadyTwo(events, g, a);
        more := [];
      }
    }
  }

  /** After any run, a further run without disposer failures can hold two undisposed resources exactly when a
      disposer failed in the run. */
  lemma SecondResourceIff(events: seq<Event>)
    ensures (exists more :: LeadsToTwo(events, more)) <==> SomeDisposerFails(events)
  {
    FailedDisposalIff(events);
    if more :| LeadsToTwo(events, more) {
      UndisposedTwiceMeansDisposerFailed(events + more);
      NoNewFailedDisposal(events, more);
    }
    if HasFailedDisposal(Run(events)) {
      FailedDisposalLeadsToTwo(events);
    }
  }

  lemma FailedDisposalLeadsToTwo(events: seq<Event>)
    requires HasFailedDisposal(Run(events))
    ensures exists more :: LeadsToTwo(events, more)
  {
    RunKeepsInv(events);
    var c := Run(events);
    var g :| 0 <= g < |c.generations| && c.generations[g].disposal == DisposeFailed;
    var more;
    if c.closing.Some? {
      more := ClosingSecond(events, g);
    } else if c.current.Some? {
      more := CurrentSecond(events, g);
    } else {
      more := IdleSecond(events, g);
    }
  }

  lemma RunNext(events: seq<Event>, event: Event, before: Cache, after: Cache)
    requires Run(events) == before && Enabled(before, event) && Step(before, event) == after
    ensures Run(events + [event]) == after
  {
    RunLast(events, event);
  }

  /** A close whose disposer fails. */
  const FAILING := [Get] + [FactorySettles(0, true)] + [Close] + [ResumeClose(0)] + [DisposerSettles(0, false)]

  lemma FailingRun()
    ensures Run(FAILING) == Cache([Generation(Ready, DisposeFailed, 1)], [Operation(Some(0), Rejected)],
                                  [Caller(0, Holding(0))], None, Some(0))
  {
    var c1 := Cache([FRESH], [], [Caller(0, Holding(0))], Some(0), None);
    var c2 := c1.(generations := [Generation(Ready, Untouched, 0)]);
    var c3 := c2.(current := None, operations := [Operation(Some(0), AwaitingResource)], closing := Some(0));
    var c4 := c3.(operations := [Operation(Some(0), AwaitingDisposer)],
      generations := [Generation(Ready, Disposing, 1)]);
    var c5 := c4.(operations := [Operation(Some(0), Rejected)], generations := [Generation(Ready, DisposeFailed, 1)]);
    RunNext([], Get, EMPTY, c1);
    assert [] + [Get] == [Get];
    RunNext([Get], FactorySettles(0, true), c1, c2);
    RunNext([Get] + [FactorySettles(0, true)], Close, c2, c3);
    RunNext([Get] + [FactorySettles(0, true)] + [Close], ResumeClose(0), c3, c4);
    RunNext([Get] + [FactorySettles(0, true)] + [Close] + [ResumeClose(0)], DisposerSettles(0, false), c4, c5);
  }

  /** After it, two undisposed resources come about. */
  lemma FailedDisposalAllowsTwoResources()
    ensures exists more :: LeadsToTwo(FAILING, more)
  {
    FailingRun();
    assert Run(FAILING).generations[0].disposal == DisposeFailed;
    FailedDisposalLeadsToTwo(FAILING);
  }

  // ---------------------------------------------------------------- waiting for a close

  /** A get waiting on a close that has settled breaks exactly when the factory or the disposer of the closed
      generation failed; otherwise it goes on. */
  lemma WaitingGetBreaksIff(events: seq<Event>, k: nat)
    requires Enabled(Run(events), ResumeGet(k))
    ensures var c := Run(events); var o := c.callers[k].outcome.operation;
            Run(events + [ResumeGet(k)]).callers[k].outcome == Broken <==>
            exists g | 0 <= g < |c.generations| ::
              AcquiredBy(c, g, o) && (c.generations[g].factory == Failed || c.generations[g].disposal == DisposeFailed)
  {
    RunKeepsInv(events);
    RunLast(events, ResumeGet(k));
    var c := Run(events);
    var o := c.callers[k].outcome.operation;
    if c.operations[o].phase == Rejected {
      RejectedHasCause(events, o);
    }
  }

  /** An operation is rejected only for a generation whose factory or disposer failed. */
  lemma RejectedHasCause(events: seq<Event>, o: nat)
    requires o < |Run(events).operations| && Run(events).operations[o].phase == Rejected
    ensures var c := Run(events);
            exists g | 0 <= g < |c.generations| ::
              AcquiredBy(c, g, o) && (c.generations[g].factory == Failed || c.generations[g].disposal == DisposeFailed)
  {
    RunKeepsInv(events);
    var c := Run(events);
    var g := c.operations[o].acquired.value;
    assert AcquiredBy(c, g, o);
  }

  /** A get that waits while the disposer runs, and wakes to its failure. */
  const WAITING := [Get] + [FactorySettles(0, true)] + [Close] + [Get] + [ResumeClose(0)] + [DisposerSettles(0, false)]

  lemma WaitingRun()
    ensures Run(WAITING) == Cache([Generation(Ready, DisposeFailed, 1)], [Operation(Some(0), Rejected)],
                                  [Caller(0, Holding(0)), Caller(1, Waiting(0))], None, Some(0))
  {
    var c1 := Cache([FRESH], [], [Caller(0, Holding(0))], Some(0), None);
    var c2 := c1.(generations := [Generation(Ready, Untouched, 0)]);
    var c3 := c2.(current := None, operations := [Operation(Some(0), AwaitingResource)], closing := Some(0));
    var c4 := c3.(callers := [Caller(0, Holding(0)), Caller(1, Waiting(0))]);
    var c5 := c4.(operations := [Operation(Some(0), AwaitingDisposer)],
      generations := [Generation(Ready, Disposing, 1)]);
    var c6 := c5.(operations := [Operation(Some(0), Rejected)], generations := [Generation(Ready, DisposeFailed, 1)]);
    RunNext([], Get, EMPTY, c1);
    assert [] + [Get] == [Get];
    RunNext([Get], FactorySettles(0, true), c1, c2);
    RunNext([Get] + [FactorySettles(0, true)], Close, c2, c3);
    RunNext([Get] + [FactorySettles(0, true)] + [Close], Get, c3, c4);
    RunNext([Get] + [FactorySettles(0, true)] + [Close] + [Get], ResumeClose(0), c4, c5);
    RunNext([Get] + [FactorySettles(0, true)] + [Close] + [Get] + [ResumeClose(0)], DisposerSettles(0, false), c5, c6);
  }

  lemma WaitingGetCanBreak()
    ensures Enabled(Run(WAITING), ResumeGet(1))
    ensures Run(WAITING + [ResumeGet(1)]).callers[1].outcome == Broken
  {
    WaitingRun();
    RunLast(WAITING, ResumeGet(1));
  }
}
