/**
 * The bounded executor for password hashing (core/tenant/argon-executor.ts). Submissions are
 * numbered in the order of run calls. start() counts a submission as active at once, but the
 * promise job that invokes its operation comes later, and so does the one that ends it.
 */
module ArgonExecution {
  import opened Common

  datatype Outcome = Resolved | RejectedUnavailable

  datatype Phase =
    | Queued
    | Started                     // active, its operation not invoked yet
    | Invoked                     // active, its operation running
    | Finishing(outcome: Outcome) // active, settled, its finally callback still to come
    | Done(outcome: Outcome)
    | Refused                     // rejected by schedule
    | Dropped                     // rejected by close

  datatype State = State(
    concurrency: nat, queueLimit: nat,
    active: nat, closed: bool, queue: seq<nat>,
    phases: seq<Phase>,           // by submission number
    started: seq<nat>,            // submissions in the order of start calls
    invoked: nat)                 // how many of them had their operation invoked; promise jobs are first in, first out

  predicate IsRunning(phase: Phase) {
    phase.Started? || phase.Invoked? || phase.Finishing?
  }

  predicate IsQueued(phase: Phase) {
    phase.Queued?
  }

  /** Neither queued nor holding a place. */
  predicate IsOver(phase: Phase) {
    phase.Done? || phase.Refused? || phase.Dropped?
  }

  function Count(phases: seq<Phase>, p: Phase -> bool): nat {
    if phases == [] then 0 else
    Count(phases[..|phases| - 1], p) + if p(phases[|phases| - 1]) then 1 else 0
  }

  const MAX_ARGON_CONCURRENCY := 2
  const MAX_ARGON_QUEUE_LIMIT := 32

  predicate ValidBounds(concurrency: int, queueLimit: int) {
    1 <= concurrency <= MAX_ARGON_CONCURRENCY && 0 <= queueLimit <= MAX_ARGON_QUEUE_LIMIT
  }

  // ---------------------------------------------------------------- events

  datatype Event =
    | Submit
    | InvokeNext
    | Settle(item: nat, outcome: Outcome)
    | Finally(item: nat)
    | Close

  predicate Enabled(s: State, event: Event) {
    match event
    case Submit => true
    case InvokeNext => s.invoked < |s.started| && s.started[s.invoked] < |s.phases|
    case Settle(i, _) => i < |s.phases| && s.phases[i].Invoked?
    case Finally(i) => i < |s.phases| && s.phases[i].Finishing? && s.active > 0
    case Close => true
  }

  /** The queue holds numbers of submissions. */
  predicate QueueKnown(s: State) {
    forall i | 0 <= i < |s.queue| :: s.queue[i] < |s.phases|
  }

  function StartItem(s: State, item: nat): State
    requires item < |s.phases|
  {
    s.(active := s.active + 1, started := s.started + [item], phases := s.phases[item := Started])
  }

  function Drained(s: State): State
    requires QueueKnown(s)
    decreases |s.queue|
  {
    if !s.closed && s.active < s.concurrency && s.queue != []
    then Drained(StartItem(s.(queue := s.queue[1..]), s.queue[0]))
    else s
  }

  function Submitted(s: State): State {
    var item := |s.phases|;
    if s.closed then s.(phases := s.phases + [Refused])
    else if s.active < s.concurrency then StartItem(s.(phases := s.phases + [Queued]), item)
    else if |s.queue| >= s.queueLimit then s.(phases := s.phases + [Refused])
    else s.(phases := s.phases + [Queued], queue := s.queue + [item])
  }

  function Dropping(phases: seq<Phase>, queue: seq<nat>): seq<Phase> {
    seq(|phases|, i requires 0 <= i < |phases| => if i in queue then Dropped else phases[i])
  }

  /** A finally callback up to its drain. */
  function Vacated(s: State, event: Event): State
    requires event.Finally? && Enabled(s, event)
  {
    s.(active := s.active - 1, phases := s.phases[event.item := Done(s.phases[event.item].outcome)])
  }

  function Step(s: State, event: Event): State
    requires Enabled(s, event)
    requires QueueKnown(s)
  {
    match event
    case Submit => Submitted(s)
    case InvokeNext => s.(invoked := s.invoked + 1, phases := s.phases[s.started[s.invoked] := Phase.Invoked])
    case Settle(i, outcome) => s.(phases := s.phases[i := Finishing(outcome)])
    case Finally(_) => Drained(Vacated(s, event))
    case Close => if s.closed then s else s.(closed := true, queue := [], phases := Dropping(s.phases, s.queue))
  }

  class ArgonExecutor {
    const concurrency: nat
    const queueLimit: nat
    var active: nat
    var closed: bool
    var queue: seq<nat>
    var phases: seq<Phase>
    var started: seq<nat>
    var invoked: nat

    function Snapshot(): State
      reads this
    {
      State(concurrency, queueLimit, active, closed, queue, phases, started, invoked)
    }

    constructor (concurrency: nat, queueLimit: nat)
      ensures Snapshot() == State(concurrency, queueLimit, 0, false, [], [], [], 0)
    {
      this.concurrency, this.queueLimit := concurrency, queueLimit;
      active, closed, queue, phases, started, invoked := 0, false, [], [], [], 0;
    }

    /** createArgonExecutor: null stands for ArgonExecutorConfigurationError. */
    static method Create(concurrency: int, queueLimit: int) returns (r: ArgonExecutor?)
      ensures r != null <==> ValidBounds(concurrency, queueLimit)
      ensures r != null ==> fresh(r) && r.Snapshot() == State(concurrency, queueLimit, 0, false, [], [], [], 0)
    {
      if !ValidBounds(concurrency, queueLimit) { return null; }
      r := new ArgonExecutor(concurrency, queueLimit);
    }

    method Start(item: nat)
      requires item < |phases|
      modifies this`active, this`phases, this`started
      ensures Snapshot() == StartItem(old(Snapshot()), item)
    {
      active := active + 1;
      started := started + [item];
      phases := phases[item := Started];
    }

    /** schedule. */
    method Run() returns (item: nat)
      modifies this
      ensures item == |old(phases)| && Snapshot() == Submitted(old(Snapshot()))
    {
      item := |phases|;
      if closed {
        phases := phases + [Refused];
        return;
      }
      phases := phases + [Queued];
      if active < concurrency {
        Start(item);
        return;
      }
      if |queue| >= queueLimit {
        phases := phases[item := Refused];
        return;
      }
      queue := queue + [item];
    }

    method Drain()
      requires QueueKnown(Snapshot())
      modifies this
      ensures Snapshot() == Drained(old(Snapshot()))
    {
      while !closed && active < concurrency && queue != []
        invariant QueueKnown(Snapshot())
        invariant Drained(Snapshot()) == Drained(old(Snapshot()))
        decreases |queue|
      {
        var item := queue[0];
        queue := queue[1..];
        Start(item);
      }
    }

    /** The finally callback. */
    method Finish(item: nat)
      requires Enabled(Snapshot(), Finally(item))
      requires QueueKnown(Snapshot())
      modifies this
      ensures Snapshot() == Step(old(Snapshot()), Finally(item))
    {
      phases := phases[item := Done(phases[item].outcome)];
      active := active - 1;
      Drain();
    }

    /** closeExecutor. */
    method CloseExecutor()
      requires QueueKnown(Snapshot())
      modifies this
      ensures Snapshot() == Step(old(Snapshot()), Close)
    {
      if closed { return; }
      closed := true;
      var items := queue;
      queue := [];
      ghost var before := phases;
      for k := 0 to |items|
        invariant items == old(queue) && queue == [] && closed
        invariant Snapshot() == old(Snapshot()).(closed := true, queue := [], phases := phases)
        invariant |phases| == |before|
        invariant forall i | 0 <= i < |phases| :: phases[i] == if i in items[..k] then Dropped else before[i]
      {
        phases := phases[items[k] := Dropped];
        assert items[..k + 1] == items[..k] + [items[k]];
      }
      assert items[..|items|] == items;
      assert phases == Dropping(before, items);
    }
  }

  // ---------------------------------------------------------------- the invariant

  ghost predicate Ascending(items: seq<nat>) {
    forall i, j | 0 <= i < j < |items| :: items[i] < items[j]
  }

  /** Bounds, and work conservation: an open executor queues only when it is full. */
  ghost predicate Bounded(s: State) {
    && s.active == Count(s.phases, IsRunning) <= s.concurrency
    && Count(s.phases, IsQueued) == |s.queue| <= s.queueLimit
    && (!s.closed && s.queue != [] ==> s.active == s.concurrency)
    && (s.closed ==> s.queue == [])
  }

  /** The queue holds the queued submissions in order, all later than those started. */
  ghost predicate Ordered(s: State) {
    && Ascending(s.queue) && Ascending(s.started)
    && QueueKnown(s)
    && (forall i | 0 <= i < |s.started| :: s.started[i] < |s.phases|)
    && (forall i, j | 0 <= i < |s.started| && 0 <= j < |s.queue| :: s.started[i] < s.queue[j])
    && (forall item | 0 <= item < |s.phases| :: s.phases[item] == Queued <==> item in s.queue)
  }

  /** Operations are invoked in the order of the starts; what was started is running or done. */
  ghost predicate Invocations(s: State) {
    && s.invoked <= |s.started|
    && (forall k {:trigger s.started[k]} | 0 <= k < |s.started| && s.started[k] < |s.phases| ::
          var phase := s.phases[s.started[k]];
          if k < s.invoked then phase.Invoked? || phase.Finishing? || phase.Done? else phase.Started?)
    && (forall item | 0 <= item < |s.phases| && (IsRunning(s.phases[item]) || s.phases[item].Done?) ::
       item in s.started)
  }

  ghost predicate Inv(s: State) {
    s.concurrency >= 1 && Bounded(s) && Ordered(s) && Invocations(s)
  }

  lemma {:induction false} CountUpdate(phases: seq<Phase>, i: nat, phase: Phase, p: Phase -> bool)
    requires i < |phases|
    ensures Count(phases[i := phase], p) ==
            Count(phases, p) + (if p(phase) then 1 else 0) - (if p(phases[i]) then 1 else 0)
  {
    var n := |phases| - 1;
    if i < n {
      CountUpdate(phases[..n], i, phase, p);
      assert phases[i := phase][..n] == phases[..n][i := phase];
    } else {
      assert phases[i := phase][..n] == phases[..n];
    }
  }

  lemma CountSnoc(phases: seq<Phase>, phase: Phase, p: Phase -> bool)
    ensures Count(phases + [phase], p) == Count(phases, p) + if p(phase) then 1 else 0
  {
    assert (phases + [phase])[..|phases|] == phases;
  }

  lemma {:induction false} CountSame(phases: seq<Phase>, phases': seq<Phase>, p: Phase -> bool)
    requires |phases| == |phases'|
    requires forall i | 0 <= i < |phases| :: p(phases[i]) == p(phases'[i])
    ensures Count(phases, p) == Count(phases', p)
  {
    if phases != [] {
      CountSame(phases[..|phases| - 1], phases'[..|phases| - 1], p);
    }
  }

  lemma {:induction false} CountNone(phases: seq<Phase>, p: Phase -> bool)
    requires forall i | 0 <= i < |phases| :: !p(phases[i])
    ensures Count(phases, p) == 0
  {
    if phases != [] {
      CountNone(phases[..|phases| - 1], p);
    }
  }

  lemma {:induction false} PhasesPartition(phases: seq<Phase>)
    ensures Count(phases, IsQueued) + Count(phases, IsRunning) + Count(phases, IsOver) == |phases|
  {
    if phases != [] {
      PhasesPartition(phases[..|phases| - 1]);
    }
  }

  /** Every submission holds a place, waits in the queue, or is over. */
  lemma Conservation(s: State)
    requires Inv(s)
    ensures s.active + |s.queue| + Count(s.phases, IsOver) == |s.phases|
  {
    PhasesPartition(s.phases);
  }

  lemma SubmitStarts(s: State)
    requires Inv(s) && !s.closed && s.active < s.concurrency
    ensures Inv(Submitted(s))
  {
    var item, phases := |s.phases|, s.phases + [Queued];
    CountSnoc(s.phases, Queued, IsRunning);
    CountSnoc(s.phases, Queued, IsQueued);
    CountUpdate(phases, item, Started, IsRunning);
    CountUpdate(phases, item, Started, IsQueued);
    assert Submitted(s).started[|s.started|] == item;
  }

  lemma SubmitQueues(s: State)
    requires Inv(s) && !s.closed && s.active == s.concurrency && |s.queue| < s.queueLimit
    ensures Inv(Submitted(s))
  {
    CountSnoc(s.phases, Queued, IsRunning);
    CountSnoc(s.phases, Queued, IsQueued);
  }

  lemma SubmitRefuses(s: State)
    requires Inv(s) && (s.closed || (s.active == s.concurrency && |s.queue| == s.queueLimit))
    ensures Inv(Submitted(s))
  {
    CountSnoc(s.phases, Refused, IsRunning);
    CountSnoc(s.phases, Refused, IsQueued);
  }

  lemma SubmitKeepsInv(s: State)
    requires Inv(s)
    ensures Inv(Submitted(s))
  {
    if s.closed { SubmitRefuses(s); }
    else if s.active < s.concurrency { SubmitStarts(s); }
    else if |s.queue| < s.queueLimit { SubmitQueues(s); }
    else { SubmitRefuses(s); }
  }

  /** What holds between the start of a drain and its end: as Inv, but a place may be free. */
  ghost predicate Draining(s: State) {
    && s.concurrency >= 1 && Ordered(s) && Invocations(s)
    && s.active == Count(s.phases, IsRunning) <= s.concurrency
    && Count(s.phases, IsQueued) == |s.queue| <= s.queueLimit
    && (s.closed ==> s.queue == [])
  }

  lemma StartKeepsOrder(s: State)
    requires Ordered(s) && s.queue != []
    ensures Ordered(StartItem(s.(queue := s.queue[1..]), s.queue[0]))
  {
    var item := s.queue[0];
    var s' := StartItem(s.(queue := s.queue[1..]), item);
    assert s.queue == [item] + s'.queue;
    assert s'.started[|s.started|] == item;
  }

  lemma StartKeepsInvocations(s: State)
    requires Ordered(s) && Invocations(s) && s.queue != []
    ensures Invocations(StartItem(s.(queue := s.queue[1..]), s.queue[0]))
  {
    var s' := StartItem(s.(queue := s.queue[1..]), s.queue[0]);
    assert s'.started[|s.started|] == s.queue[0];
  }

  lemma StartKeepsDraining(s: State)
    requires Draining(s) && !s.closed && s.active < s.concurrency && s.queue != []
    ensures Draining(StartItem(s.(queue := s.queue[1..]), s.queue[0]))
  {
    assert s.queue[0] in s.queue;
    CountUpdate(s.phases, s.queue[0], Started, IsRunning);
    CountUpdate(s.phases, s.queue[0], Started, IsQueued);
    StartKeepsOrder(s);
    StartKeepsInvocations(s);
  }

  lemma {:induction false} DrainedKeepsInv(s: State)
    requires Draining(s)
    ensures Inv(Drained(s))
    decreases |s.queue|
  {
    if !s.closed && s.active < s.concurrency && s.queue != [] {
      StartKeepsDraining(s);
      DrainedKeepsInv(StartItem(s.(queue := s.queue[1..]), s.queue[0]));
    }
  }

  lemma InvokeKeepsBounds(s: State)
    requires Bounded(s) && Ordered(s) && Enabled(s, InvokeNext) && s.phases[s.started[s.invoked]].Started?
    ensures Bounded(Step(s, InvokeNext))
  {
    CountUpdate(s.phases, s.started[s.invoked], Phase.Invoked, IsRunning);
    CountUpdate(s.phases, s.started[s.invoked], Phase.Invoked, IsQueued);
  }

  lemma InvokeKeepsInv(s: State)
    requires Inv(s) && Enabled(s, InvokeNext)
    ensures Inv(Step(s, InvokeNext))
  {
    InvokeKeepsBounds(s);
  }

  lemma SettleKeepsInv(s: State, event: Event)
    requires Inv(s) && event.Settle? && Enabled(s, event)
    ensures Inv(Step(s, event))
  {
    CountUpdate(s.phases, event.item, Finishing(event.outcome), IsRunning);
    CountUpdate(s.phases, event.item, Finishing(event.outcome), IsQueued);
  }

  lemma VacatedIsDraining(s: State, event: Event)
    requires Inv(s) && event.Finally? && Enabled(s, event)
    ensures Draining(Vacated(s, event))
  {
    var done := Done(s.phases[event.item].outcome);
    CountUpdate(s.phases, event.item, done, IsRunning);
    CountUpdate(s.phases, event.item, done, IsQueued);
  }

  lemma FinallyKeepsInv(s: State, event: Event)
    requires Inv(s) && event.Finally? && Enabled(s, event)
    ensures Inv(Step(s, event))
  {
    VacatedIsDraining(s, event);
    DrainedKeepsInv(Vacated(s, event));
  }

  lemma CloseKeepsInv(s: State)
    requires Inv(s)
    ensures Inv(Step(s, Close))
  {
    if !s.closed {
      CountSame(s.phases, Dropping(s.phases, s.queue), IsRunning);
      CountNone(Dropping(s.phases, s.queue), IsQueued);
    }
  }

  lemma StepKeepsInv(s: State, event: Event)
    requires Inv(s) && Enabled(s, event)
    ensures Inv(Step(s, event))
  {
    match event
    case Submit => SubmitKeepsInv(s);
    case InvokeNext => InvokeKeepsInv(s);
    case Settle(_, _) => SettleKeepsInv(s, event);
    case Finally(_) => FinallyKeepsInv(s, event);
    case Close => CloseKeepsInv(s);
  }

  // ---------------------------------------------------------------- runs

  /** An event that is not enabled does not happen. */
  function After(s: State, events: seq<Event>): State {
    if events == [] then s else
    var before, event := After(s, events[..|events| - 1]), events[|events| - 1];
    if QueueKnown(before) && Enabled(before, event) then Step(before, event) else before
  }

  function Fresh(concurrency: nat, queueLimit: nat): State {
    State(concurrency, queueLimit, 0, false, [], [], [], 0)
  }

  /** Every run keeps the bounds, the order and the work conservation, from those of a new executor on. */
  lemma {:induction false} RunKeepsInv(s: State, events: seq<Event>)
    requires Inv(s) || (s == Fresh(s.concurrency, s.queueLimit) && s.concurrency >= 1)
    ensures Inv(After(s, events))
  {
    if events != [] {
      var before, event := After(s, events[..|events| - 1]), events[|events| - 1];
      RunKeepsInv(s, events[..|events| - 1]);
      if Enabled(before, event) {
        StepKeepsInv(before, event);
      }
    }
  }

  lemma AscendingOrder(items: seq<nat>, i: nat, j: nat)
    requires Ascending(items) && i < |items| && j < |items| && items[i] < items[j]
    ensures i < j
  {
  }

  /** Accepted submissions start, and have their operations invoked, in submission order. */
  lemma StartsInSubmissionOrder(s: State, early: nat, late: nat)
    requires Inv(s) && early < late < |s.phases| && late in s.started
    ensures s.phases[early] != Queued
    ensures s.phases[late].Invoked? ==> !s.phases[early].Started?
  {
    var l :| 0 <= l < |s.started| && s.started[l] == late;
    if s.phases[early].Started? {
      var e :| 0 <= e < |s.started| && s.started[e] == early;
      AscendingOrder(s.started, e, l);
    }
  }

  /** What a submission's promise has been settled with. */
  function Settlement(phase: Phase): Option<Outcome> {
    match phase
    case Finishing(outcome) => Some(outcome)
    case Done(outcome) => Some(outcome)
    case Refused => Some(RejectedUnavailable)
    case Dropped => Some(RejectedUnavailable)
    case _ => None
  }

  /** What a step may change: unsettled submissions only, and after a close nothing more starts. */
  ghost predicate Advances(s: State, s': State) {
    && |s.phases| <= |s'.phases|
    && (forall i | 0 <= i < |s.phases| && Settlement(s.phases[i]).Some? ::
       Settlement(s'.phases[i]) == Settlement(s.phases[i]))
    && (s.closed ==> s'.closed && s'.started == s.started)
    && s.started <= s'.started && s.invoked <= s'.invoked
  }

  lemma {:induction false} DrainedAdvances(s: State)
    requires Draining(s)
    ensures Advances(s, Drained(s))
    decreases |s.queue|
  {
    if !s.closed && s.active < s.concurrency && s.queue != [] {
      var next := StartItem(s.(queue := s.queue[1..]), s.queue[0]);
      assert s.queue[0] in s.queue;
      StartKeepsDraining(s);
      DrainedAdvances(next);
    }
  }

  lemma FinallyAdvances(s: State, event: Event)
    requires Inv(s) && event.Finally? && Enabled(s, event)
    ensures Advances(s, Step(s, event))
  {
    VacatedIsDraining(s, event);
    DrainedAdvances(Vacated(s, event));
  }

  lemma OtherStepAdvances(s: State, event: Event)
    requires Inv(s) && !event.Finally? && Enabled(s, event)
    ensures Advances(s, Step(s, event))
  {
  }

  lemma StepAdvances(s: State, event: Event)
    requires Inv(s) && Enabled(s, event)
    ensures Advances(s, Step(s, event))
  {
    if event.Finally? {
      FinallyAdvances(s, event);
    } else {
      OtherStepAdvances(s, event);
    }
  }

  /** Over any run each submission settles at most once, and nothing starts after close. */
  lemma {:induction false} RunAdvances(s: State, events: seq<Event>)
    requires Inv(s)
    ensures Advances(s, After(s, events))
  {
    if events != [] {
      var before, event := After(s, events[..|events| - 1]), events[|events| - 1];
      RunAdvances(s, events[..|events| - 1]);
      RunKeepsInv(s, events[..|events| - 1]);
      if Enabled(before, event) {
        StepAdvances(before, event);
      }
    }
  }

  predicate WasInvoked(phase: Phase) {
    phase.Invoked? || phase.Finishing? || phase.Done?
  }

  predicate Reaches(s: State, events: seq<Event>, item: nat) {
    item < |After(s, events).phases| && After(s, events).phases[item].Invoked?
  }

  function Invokes(n: nat): seq<Event> {
    if n == 0 then [] else Invokes(n - 1) + [InvokeNext]
  }

  lemma AfterNext(s: State, events: seq<Event>, event: Event)
    requires QueueKnown(After(s, events)) && Enabled(After(s, events), event)
    ensures After(s, events + [event]) == Step(After(s, events), event)
  {
    assert (events + [event])[..|events|] == events;
  }

  lemma InvokeOne(s: State)
    requires Inv(s) && s.invoked < |s.started|
    ensures Enabled(s, InvokeNext)
    ensures var s' := Step(s, InvokeNext); var item := s.started[s.invoked];
            && s'.started == s.started && s'.invoked == s.invoked + 1 && |s'.phases| == |s.phases|
            && item < |s'.phases| && s'.phases[item].Invoked?
  {
  }

  /** The promise jobs of the started operations can all still run. */
  lemma {:induction false} InvokesRun(s: State, n: nat)
    requires Inv(s) && s.invoked + n <= |s.started|
    ensures var s' := After(s, Invokes(n));
            && s'.started == s.started && s'.invoked == s.invoked + n && |s'.phases| == |s.phases|
            && (n > 0 ==> Reaches(s, Invokes(n), s.started[s.invoked + n - 1]))
  {
    if n > 0 {
      InvokesRun(s, n - 1);
      RunKeepsInv(s, Invokes(n - 1));
      InvokeOne(After(s, Invokes(n - 1)));
      AfterNext(s, Invokes(n - 1), InvokeNext);
    }
  }

  /** After a close more operations can be invoked exactly when one is started and not yet invoked. */
  lemma InvocationsAfterCloseIff(s: State)
    requires Inv(s) && s.closed
    ensures (exists events :: After(s, events).invoked > s.invoked) <==> s.invoked < |s.started|
  {
    if events :| After(s, events).invoked > s.invoked {
      RunAdvances(s, events);
      RunKeepsInv(s, events);
    }
    if s.invoked < |s.started| {
      InvokesRun(s, 1);
    }
  }

  /** What may still be invoked after a close was counted active when the executor closed. */
  lemma InvokedAfterCloseWasActive(s: State, events: seq<Event>, item: nat)
    requires Inv(s) && s.closed && item < |s.phases| && !WasInvoked(s.phases[item])
    requires Reaches(s, events, item)
    ensures s.phases[item].Started?
  {
    RunAdvances(s, events);
    RunKeepsInv(s, events);
    assert item in After(s, events).started;
  }

  /**
    * And all of that can be: of the operations not invoked at the close, some further run invokes exactly the active
    * ones.
    */
  lemma InvokedAfterCloseIff(s: State, item: nat)
    requires Inv(s) && s.closed && item < |s.phases| && !WasInvoked(s.phases[item])
    ensures (exists events :: Reaches(s, events, item)) <==> s.phases[item].Started?
  {
    if events :| Reaches(s, events, item) {
      InvokedAfterCloseWasActive(s, events, item);
    }
    if s.phases[item].Started? {
      assert IsRunning(s.phases[item]);
      var k :| 0 <= k < |s.started| && s.started[k] == item;
      InvokesRun(s, k - s.invoked + 1);
    }
  }

  const OPEN := State(1, 0, 1, false, [], [Started], [0], 0)
  const CLOSED := OPEN.(closed := true)

  /** And one can be: start() precedes the promise job that invokes the operation. */
  lemma InvocationCanFollowClose()
    ensures Step(Fresh(1, 0), Submit) == OPEN
    ensures Step(OPEN, Close) == CLOSED
    ensures Enabled(CLOSED, InvokeNext) && Step(CLOSED, InvokeNext).phases == [Phase.Invoked]
  {
    assert Dropping([Started], []) == [Started];
  }
}
