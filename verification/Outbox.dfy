/**
 * The adapter outbox: the rows of ecosystem_events, the guarded updates of
 * core/adapters/ecosystem-repository.ts, and any number of workers inside processNext
 * (core/adapters/ecosystem-service.ts). A flight is one such call past its claim; it advances one
 * awaited step at a time, keeps the attempt count it read, and may stop for ever at any point.
 */
module Outbox {
  import opened Common

  datatype Target = NotificationHub | WorkflowEngine | InvoiceReconciliation

  datatype Key = Key(tenant: nat, target: Target, eventId: nat)

  datatype Status = Queued | Retrying | Sent | Failed | Disabled

  datatype Row = Row(key: Key, status: Status, attempts: nat, nextAttempt: Option<int>, created: int)

  /** The await at which a flight stands, or how processNext ended. */
  datatype Place =
    | Requesting              // inside requestFor
    | Fetching                // the request is out
    | Linking                 // setWorkflowExecutionId
    | MarkingSent
    | Refused                 // marking after a status outside 200-299
    | Caught                  // marking in the catch block
    | Returned(status: Status)
    | Threw

  datatype Flight = Flight(
    id: nat, attempt: nat, place: Place,
    called: bool,             // the request was made
    accepted: bool,           // a 2xx was seen
    marked: bool)             // one of its guarded updates took effect

  datatype Config = Config(notifications: bool, workflows: bool)

  datatype State = State(config: Config, rows: map<nat, Row>, flights: seq<Flight>)

  /** How an update ends: the error of the middle case comes after the commit. */
  datatype Write = Acknowledged | Unacknowledged | Unapplied

  datatype Event =
    | Enqueue(id: nat, key: Key, now: int)
    | Claim(picked: Option<nat>, now: int, clock: int, locked: set<nat>)
    | Build(flight: nat, built: bool)
    | Respond(flight: nat, response: Option<int>, links: bool)
    | Link(flight: nat, linked: bool)
    | Mark(flight: nat, write: Write, now: int)

  const MAX_ATTEMPTS := 5
  const MAX_ATTEMPT_COUNT := 1000
  const LEASE_MS := 5 * 60 * 1000
  const MAX_BACKOFF_MS := 60 * 60 * 1000

  predicate IsTerminal(status: Status) {
    status.Sent? || status.Failed? || status.Disabled?
  }

  function EnabledFor(config: Config, target: Target): bool {
    match target
    case NotificationHub => config.notifications
    case WorkflowEngine => config.workflows
    case InvoiceReconciliation => false
  }

  function Pow2(n: nat): nat {
    if n == 0 then 1 else 2 * Pow2(n - 1)
  }

  function BackoffMs(attempt: nat): nat {
    Min(MAX_BACKOFF_MS, 1000 * Pow2(Max(0, attempt - 1)))
  }

  // ---------------------------------------------------------------- the repository's statements

  predicate IsDue(rows: map<nat, Row>, id: nat, now: int, locked: set<nat>)
    requires id in rows
  {
    && (rows[id].status.Queued? || rows[id].status.Retrying?)
    && rows[id].nextAttempt.Some? && rows[id].nextAttempt.value <= now
    && id !in locked
  }

  /** ORDER BY next_attempt_at, created_at, id. */
  predicate ComesBefore(rows: map<nat, Row>, a: nat, b: nat)
    requires a in rows && b in rows && rows[a].nextAttempt.Some? && rows[b].nextAttempt.Some?
  {
    var x, y := rows[a].nextAttempt.value, rows[b].nextAttempt.value;
    x < y || (x == y && (rows[a].created < rows[b].created || (rows[a].created == rows[b].created && a <= b)))
  }

  predicate IsNext(rows: map<nat, Row>, id: nat, now: int, locked: set<nat>)
    requires id in rows
  {
    && IsDue(rows, id, now, locked)
    && forall other | other in rows && IsDue(rows, other, now, locked) :: ComesBefore(rows, id, other)
  }

  predicate Picks(rows: map<nat, Row>, picked: Option<nat>, now: int, locked: set<nat>) {
    match picked
    case Some(id) => id in rows && IsNext(rows, id, now, locked)
    case None => forall id | id in rows :: !IsDue(rows, id, now, locked)
  }

  predicate HasKey(rows: map<nat, Row>, key: Key) {
    exists id | id in rows :: rows[id].key == key
  }

  ghost predicate KeysUnique(rows: map<nat, Row>) {
    forall a, b | a in rows && b in rows && rows[a].key == rows[b].key :: a == b
  }

  /** The lifecycle trigger raises on the update that a repeated key turns into. */
  predicate Refuses(rows: map<nat, Row>, key: Key) {
    exists id | id in rows :: rows[id].key == key && !rows[id].status.Retrying?
  }

  function NewRow(config: Config, key: Key, now: int): Row {
    if EnabledFor(config, key.target)
    then Row(key, Queued, 0, Some(now), now)
    else Row(key, Disabled, 0, None, now)
  }

  function Claimed(row: Row, clock: int): Row {
    row.(status := Retrying, attempts := row.attempts + 1, nextAttempt := Some(clock + LEASE_MS))
  }

  /** The mark a flight makes where it stands. */
  function Verdict(flight: Flight): Status {
    if flight.place.MarkingSent? then Sent else if flight.attempt >= MAX_ATTEMPTS then Failed else Retrying
  }

  /** UPDATE ... WHERE id = $1 AND status = 'retrying'. */
  function MarkedRows(rows: map<nat, Row>, flight: Flight, now: int): map<nat, Row> {
    if flight.id !in rows || !rows[flight.id].status.Retrying? then rows else
    var nextAttempt := if Verdict(flight).Retrying? then Some(now + BackoffMs(flight.attempt)) else None;
    rows[flight.id := rows[flight.id].(status := Verdict(flight), nextAttempt := nextAttempt)]
  }

  // ---------------------------------------------------------------- steps

  predicate At(s: State, flight: nat, place: Place) {
    flight < |s.flights| && s.flights[flight].place == place
  }

  predicate Enabled(s: State, event: Event) {
    match event
    case Enqueue(id, key, _) => !HasKey(s.rows, key) ==> id !in s.rows
    case Claim(picked, now, _, locked) => Picks(s.rows, picked, now, locked)
    case Build(f, built) => At(s, f, Requesting) && s.flights[f].id in s.rows &&
      (built ==> !s.rows[s.flights[f].id].key.target.InvoiceReconciliation?)
    case Respond(f, _, links) => At(s, f, Fetching) && s.flights[f].id in s.rows &&
      (links ==> s.rows[s.flights[f].id].key.target.WorkflowEngine?)
    case Link(f, _) => At(s, f, Linking)
    case Mark(f, _, _) => At(s, f, MarkingSent) || At(s, f, Refused) || At(s, f, Caught)
  }

  /** A repeated key is returned when its row is retrying; otherwise the lifecycle trigger raises. Neither writes. */
  function Enqueued(s: State, id: nat, key: Key, now: int): State {
    if HasKey(s.rows, key) then s else s.(rows := s.rows[id := NewRow(s.config, key, now)])
  }

  /** The attempt_count check refuses a 1001st claim. */
  function ClaimedBy(s: State, picked: Option<nat>, clock: int): State
    requires picked.Some? ==> picked.value in s.rows
  {
    if picked.None? || s.rows[picked.value].attempts >= MAX_ATTEMPT_COUNT then s else
    var row := Claimed(s.rows[picked.value], clock);
    s.(rows := s.rows[picked.value := row],
       flights := s.flights + [Flight(picked.value, row.attempts, Requesting, false, false, false)])
  }

  function AfterResponse(flight: Flight, response: Option<int>, links: bool): Flight {
    match response
    case None => flight.(place := Caught)
    case Some(status) =>
      if 200 <= status < 300
      then flight.(place := if links then Linking else MarkingSent, accepted := true)
      else flight.(place := Refused)
  }

  function AfterMark(flight: Flight, write: Write): Flight {
    match write
    case Acknowledged => flight.(place := Returned(Verdict(flight)), marked := true)
    case Unacknowledged => flight.(place := if flight.place.Caught? then Threw else Caught, marked := true)
    case Unapplied => flight.(place := if flight.place.Caught? then Threw else Caught)
  }

  /** The steps that write no row. */
  function Moved(flight: Flight, event: Event): Flight
    requires event.Build? || event.Respond? || event.Link?
  {
    match event
    case Build(_, built) => if built then flight.(place := Fetching, called := true) else flight.(place := Caught)
    case Respond(_, response, links) => AfterResponse(flight, response, links)
    case Link(_, linked) => flight.(place := if linked then MarkingSent else Caught)
  }

  function Step(s: State, event: Event): State
    requires Enabled(s, event)
  {
    match event
    case Enqueue(id, key, now) => Enqueued(s, id, key, now)
    case Claim(picked, _, clock, _) => ClaimedBy(s, picked, clock)
    case Mark(f, write, now) =>
      s.(rows := if write.Unapplied? then s.rows else MarkedRows(s.rows, s.flights[f], now),
         flights := s.flights[f := AfterMark(s.flights[f], write)])
    case _ => s.(flights := s.flights[event.flight := Moved(s.flights[event.flight], event)])
  }

  datatype EnqueueResult = Inserted | Existing | Raised

  class Adapters {
    const config: Config
    var rows: map<nat, Row>
    var flights: seq<Flight>

    function Snapshot(): State
      reads this
    {
      State(config, rows, flights)
    }

    constructor (config: Config)
      ensures Snapshot() == State(config, map[], [])
    {
      this.config := config;
      rows, flights := map[], [];
    }

    /** enqueue: INSERT ... ON CONFLICT DO UPDATE, under the lifecycle trigger and the unique index on the key. */
    method EnqueueEvent(id: nat, key: Key, now: int) returns (r: EnqueueResult)
      requires Enabled(Snapshot(), Enqueue(id, key, now)) && KeysUnique(rows)
      modifies this`rows
      ensures Snapshot() == Step(old(Snapshot()), Enqueue(id, key, now))
      ensures r.Inserted? <==> !HasKey(old(rows), key)
      ensures r.Existing? <==> exists other | other in old(rows) ::
              old(rows)[other].key == key && old(rows)[other].status.Retrying?
      ensures r.Raised? <==> Refuses(old(rows), key)
    {
      if other :| other in rows && rows[other].key == key {
        r := if rows[other].status.Retrying? then Existing else Raised;
      } else {
        rows := rows[id := NewRow(config, key, now)];
        r := Inserted;
      }
    }

    /** claimNext, past which processNext has a flight; raised when the attempt_count check refuses. */
    method ClaimNext(now: int, clock: int, locked: set<nat>) returns (picked: Option<nat>, raised: bool)
      modifies this
      ensures Picks(old(rows), picked, now, locked)
      ensures Snapshot() == Step(old(Snapshot()), Claim(picked, now, clock, locked))
      ensures raised <==> picked.Some? && old(rows)[picked.value].attempts >= MAX_ATTEMPT_COUNT
    {
      NextExists(rows, now, locked);
      if id :| id in rows && IsNext(rows, id, now, locked) {
        picked, raised := Some(id), rows[id].attempts >= MAX_ATTEMPT_COUNT;
        if !raised {
          rows := rows[id := Claimed(rows[id], clock)];
          flights := flights + [Flight(id, rows[id].attempts, Requesting, false, false, false)];
        }
      } else {
        picked, raised := None, false;
      }
    }

    /** markSent, markRetry or markFailed from flight f, with the catch around it. */
    method MarkFlight(f: nat, write: Write, now: int)
      requires Enabled(Snapshot(), Mark(f, write, now))
      modifies this
      ensures Snapshot() == Step(old(Snapshot()), Mark(f, write, now))
    {
      var flight := flights[f];
      if !write.Unapplied? {
        if flight.id in rows && rows[flight.id].status.Retrying? {
          if flight.place.MarkingSent? {
            rows := rows[flight.id := rows[flight.id].(status := Sent, nextAttempt := None)];
          } else if flight.attempt >= MAX_ATTEMPTS {
            rows := rows[flight.id := rows[flight.id].(status := Failed, nextAttempt := None)];
          } else {
            rows := rows[flight.id := rows[flight.id].(nextAttempt := Some(now + BackoffMs(flight.attempt)))];
          }
        }
        flight := flight.(marked := true);
      }
      if write.Acknowledged? {
        flight := flight.(place := Returned(Verdict(flight)));
      } else {
        flight := flight.(place := if flight.place.Caught? then Threw else Caught);
      }
      flights := flights[f := flight];
    }

    /** requestFor returns a request, which then goes out, or throws: always, for a target without a contract. */
    method Built(f: nat, built: bool)
      requires Enabled(Snapshot(), Build(f, built))
      modifies this`flights
      ensures Snapshot() == Step(old(Snapshot()), Build(f, built))
    {
      if built {
        flights := flights[f := flights[f].(place := Fetching, called := true)];
      } else {
        flights := flights[f := flights[f].(place := Caught)];
      }
    }

    /** setWorkflowExecutionId settles. */
    method Linked(f: nat, linked: bool)
      requires Enabled(Snapshot(), Link(f, linked))
      modifies this`flights
      ensures Snapshot() == Step(old(Snapshot()), Link(f, linked))
    {
      flights := flights[f := flights[f].(place := if linked then MarkingSent else Caught)];
    }

    /** fetch settles. */
    method Responded(f: nat, response: Option<int>, links: bool)
      requires Enabled(Snapshot(), Respond(f, response, links))
      modifies this`flights
      ensures Snapshot() == Step(old(Snapshot()), Respond(f, response, links))
    {
      var flight := flights[f];
      if response.None? {
        flight := flight.(place := Caught);
      } else if 200 <= response.value < 300 {
        flight := flight.(place := if links then Linking else MarkingSent, accepted := true);
      } else {
        flight := flight.(place := Refused);
      }
      flights := flights[f := flight];
    }
  }

  /** When something is due there is a first due row, and only one. */
  lemma {:induction false} NextExists(rows: map<nat, Row>, now: int, locked: set<nat>)
    ensures (exists id | id in rows :: IsDue(rows, id, now, locked)) <==>
            exists id | id in rows :: IsNext(rows, id, now, locked)
  {
    var due := set id | id in rows && IsDue(rows, id, now, locked);
    if due == {} {
      assert forall id | id in rows :: id !in due;
    } else {
      var first := LeastOf(rows, due);
      assert first in rows && IsNext(rows, first, now, locked);
    }
  }

  lemma {:induction false} LeastOf(rows: map<nat, Row>, ids: set<nat>) returns (first: nat)
    requires ids != {} && ids <= rows.Keys
    requires forall id | id in ids :: rows[id].nextAttempt.Some?
    ensures first in ids && forall id | id in ids :: ComesBefore(rows, first, id)
    decreases |ids|
  {
    var id :| id in ids;
    first := id;
    var rest := ids - {id};
    assert ids == rest + {id};
    if rest != {} {
      var least := LeastOf(rows, rest);
      first := if ComesBefore(rows, id, least) then id else least;
    }
  }

  lemma NextIsUnique(rows: map<nat, Row>, a: nat, b: nat, now: int, locked: set<nat>)
    requires a in rows && b in rows && IsNext(rows, a, now, locked) && IsNext(rows, b, now, locked)
    ensures a == b
  {
    assert ComesBefore(rows, a, b) && ComesBefore(rows, b, a);
  }

  // ---------------------------------------------------------------- the invariant

  /** The claims of a row among these flights. */
  function Claims(flights: seq<Flight>, id: nat): nat {
    if flights == [] then 0 else
    Claims(flights[..|flights| - 1], id) + if flights[|flights| - 1].id == id then 1 else 0
  }

  /** The remote calls made for a row. */
  function Calls(flights: seq<Flight>, id: nat): nat {
    if flights == [] then 0 else
    Calls(flights[..|flights| - 1], id) +
      if flights[|flights| - 1].id == id && flights[|flights| - 1].called then 1 else 0
  }

  ghost predicate SomeAccepted(flights: seq<Flight>, id: nat) {
    exists k | 0 <= k < |flights| :: flights[k].id == id && flights[k].accepted
  }

  ghost predicate HasAttempt(flights: seq<Flight>, id: nat, attempt: nat) {
    exists k | 0 <= k < |flights| :: flights[k].id == id && flights[k].attempt == attempt
  }

  ghost predicate RowOk(s: State, id: nat)
    requires id in s.rows
  {
    var row := s.rows[id];
    && row.attempts == Claims(s.flights, id) <= MAX_ATTEMPT_COUNT
    && (row.status.Queued? || row.status.Disabled? <==> row.attempts == 0)
    && (row.nextAttempt.Some? <==> row.status.Queued? || row.status.Retrying?)
    && (row.key.target.InvoiceReconciliation? ==> row.status.Disabled?)
    && (row.status.Sent? ==> SomeAccepted(s.flights, id))
    && (row.status.Failed? ==> row.attempts >= MAX_ATTEMPTS)
    && (row.attempts > 0 ==> HasAttempt(s.flights, id, row.attempts))
  }

  ghost predicate FlightOk(s: State, f: Flight) {
    && f.id in s.rows && 1 <= f.attempt <= s.rows[f.id].attempts
    && (f.place.Linking? || f.place.MarkingSent? ==> f.accepted)
    && (f.accepted || f.place.Fetching? ==> f.called)
    && (f.marked && f.attempt >= MAX_ATTEMPTS ==> IsTerminal(s.rows[f.id].status))
    && (f.place.Returned? && !f.place.status.Retrying? ==> IsTerminal(s.rows[f.id].status))
  }

  ghost predicate Numbered(flights: seq<Flight>) {
    forall k | 0 <= k < |flights| :: flights[k].attempt == Claims(flights[..k + 1], flights[k].id)
  }

  ghost predicate RowsOk(s: State) {
    forall id | id in s.rows :: RowOk(s, id)
  }

  ghost predicate FlightsOk(s: State) {
    forall k | 0 <= k < |s.flights| :: FlightOk(s, s.flights[k])
  }

  ghost predicate Inv(s: State) {
    KeysUnique(s.rows) && RowsOk(s) && FlightsOk(s) && Numbered(s.flights)
  }

  // ---------------------------------------------------------------- one flight moves

  /** A flight that moves keeps its row and its attempt, and forgets nothing. */
  predicate Moves(f: Flight, f': Flight) {
    && f'.id == f.id && f'.attempt == f.attempt
    && (f.called ==> f'.called) && (f.accepted ==> f'.accepted) && (f.marked ==> f'.marked)
  }

  lemma {:induction false} ClaimsUpdate(flights: seq<Flight>, k: nat, f: Flight, id: nat)
    requires k < |flights| && f.id == flights[k].id
    ensures Claims(flights[k := f], id) == Claims(flights, id)
  {
    var n := |flights| - 1;
    if k < n {
      ClaimsUpdate(flights[..n], k, f, id);
      assert flights[k := f][..n] == flights[..n][k := f];
    } else {
      assert flights[k := f][..n] == flights[..n];
    }
  }

  lemma ClaimsSnoc(flights: seq<Flight>, f: Flight, id: nat)
    ensures Claims(flights + [f], id) == Claims(flights, id) + if f.id == id then 1 else 0
  {
    assert (flights + [f])[..|flights|] == flights;
  }

  lemma NumberedUpdate(flights: seq<Flight>, k: nat, f: Flight)
    requires Numbered(flights) && k < |flights| && Moves(flights[k], f)
    ensures Numbered(flights[k := f])
  {
    var flights' := flights[k := f];
    forall j | 0 <= j < |flights|
      ensures flights'[j].attempt == Claims(flights'[..j + 1], flights'[j].id)
    {
      if k <= j {
        ClaimsUpdate(flights[..j + 1], k, f, flights[j].id);
        assert flights'[..j + 1] == flights[..j + 1][k := f];
      } else {
        assert flights'[..j + 1] == flights[..j + 1];
      }
    }
  }

  lemma NumberedSnoc(flights: seq<Flight>, f: Flight)
    requires Numbered(flights) && f.attempt == Claims(flights, f.id) + 1
    ensures Numbered(flights + [f])
  {
    var flights' := flights + [f];
    forall j | 0 <= j < |flights'|
      ensures flights'[j].attempt == Claims(flights'[..j + 1], flights'[j].id)
    {
      if j < |flights| {
        assert flights'[..j + 1] == flights[..j + 1];
      } else {
        assert flights'[..j + 1] == flights';
        ClaimsSnoc(flights, f, f.id);
      }
    }
  }

  lemma WitnessesStay(flights: seq<Flight>, k: nat, f: Flight, id: nat, attempt: nat)
    requires k < |flights| && Moves(flights[k], f)
    ensures SomeAccepted(flights, id) ==> SomeAccepted(flights[k := f], id)
    ensures HasAttempt(flights, id, attempt) ==> HasAttempt(flights[k := f], id, attempt)
  {
    var flights' := flights[k := f];
    if SomeAccepted(flights, id) {
      var j :| 0 <= j < |flights| && flights[j].id == id && flights[j].accepted;
      assert flights'[j].id == id && flights'[j].accepted;
    }
    if HasAttempt(flights, id, attempt) {
      var j :| 0 <= j < |flights| && flights[j].id == id && flights[j].attempt == attempt;
      assert flights'[j].id == id && flights'[j].attempt == attempt;
    }
  }

  lemma MoveKeepsRow(s: State, k: nat, f: Flight, id: nat)
    requires k < |s.flights| && Moves(s.flights[k], f) && id in s.rows && RowOk(s, id)
    ensures RowOk(s.(flights := s.flights[k := f]), id)
  {
    ClaimsUpdate(s.flights, k, f, id);
    WitnessesStay(s.flights, k, f, id, s.rows[id].attempts);
  }

  lemma MoveKeepsInv(s: State, k: nat, f: Flight)
    requires Inv(s) && k < |s.flights| && Moves(s.flights[k], f) && FlightOk(s, f)
    ensures Inv(s.(flights := s.flights[k := f]))
  {
    forall id | id in s.rows
      ensures RowOk(s.(flights := s.flights[k := f]), id)
    {
      MoveKeepsRow(s, k, f, id);
    }
    NumberedUpdate(s.flights, k, f);
  }

  /** Writing the verdict of flight k to its retrying row. */
  lemma VerdictKeepsInv(s: State, k: nat, now: int)
    requires Inv(s) && k < |s.flights|
    requires s.flights[k].place.MarkingSent? || s.flights[k].place.Refused? || s.flights[k].place.Caught?
    ensures Inv(s.(rows := MarkedRows(s.rows, s.flights[k], now)))
    ensures var status := MarkedRows(s.rows, s.flights[k], now)[s.flights[k].id].status;
            !Verdict(s.flights[k]).Retrying? ==> IsTerminal(status)
  {
    assert FlightOk(s, s.flights[k]);
    assert RowOk(s, s.flights[k].id);
    var s' := s.(rows := MarkedRows(s.rows, s.flights[k], now));
    forall id | id in s'.rows
      ensures RowOk(s', id)
    {
      assert RowOk(s, id);
    }
    forall j | 0 <= j < |s.flights|
      ensures FlightOk(s', s.flights[j])
    {
      assert FlightOk(s, s.flights[j]);
    }
  }

  lemma MarkKeepsInv(s: State, event: Event)
    requires Inv(s) && event.Mark? && Enabled(s, event)
    ensures Inv(Step(s, event))
  {
    var k, flight := event.flight, s.flights[event.flight];
    if event.write.Unapplied? {
      MoveKeepsInv(s, k, AfterMark(flight, event.write));
    } else {
      VerdictKeepsInv(s, k, event.now);
      MoveKeepsInv(s.(rows := MarkedRows(s.rows, flight, event.now)), k, AfterMark(flight, event.write));
    }
  }

  lemma EnqueueKeepsInv(s: State, event: Event)
    requires Inv(s) && event.Enqueue? && Enabled(s, event)
    ensures Inv(Step(s, event))
  {
    if !HasKey(s.rows, event.key) {
      var s' := Step(s, event);
      NoClaims(s, event.id, s.flights);
      forall id | id in s'.rows
        ensures RowOk(s', id)
      {
        assert id != event.id ==> RowOk(s, id);
      }
      forall j | 0 <= j < |s.flights|
        ensures FlightOk(s', s.flights[j])
      {
        assert FlightOk(s, s.flights[j]);
      }
    }
  }

  lemma {:induction false} NoClaims(s: State, id: nat, flights: seq<Flight>)
    requires id !in s.rows && forall k | 0 <= k < |flights| :: flights[k].id in s.rows
    ensures Claims(flights, id) == 0
  {
    if flights != [] {
      NoClaims(s, id, flights[..|flights| - 1]);
    }
  }

  lemma ClaimKeepsRow(s: State, f: Flight, clock: int, id: nat)
    requires f.id in s.rows && RowOk(s, f.id) && id in s.rows && RowOk(s, id)
    requires s.rows[f.id].status.Queued? || s.rows[f.id].status.Retrying?
    requires s.rows[f.id].attempts < MAX_ATTEMPT_COUNT && f.attempt == s.rows[f.id].attempts + 1
    ensures RowOk(s.(rows := s.rows[f.id := Claimed(s.rows[f.id], clock)], flights := s.flights + [f]), id)
  {
    var flights' := s.flights + [f];
    ClaimsSnoc(s.flights, f, id);
    if SomeAccepted(s.flights, id) {
      var j :| 0 <= j < |s.flights| && s.flights[j].id == id && s.flights[j].accepted;
      assert flights'[j].id == id && flights'[j].accepted;
    }
    if id == f.id {
      assert flights'[|s.flights|] == f;
    } else if s.rows[id].attempts > 0 {
      var j :| 0 <= j < |s.flights| && s.flights[j].id == id && s.flights[j].attempt == s.rows[id].attempts;
      assert flights'[j].id == id;
    }
  }

  lemma ClaimKeepsRows(s: State, f: Flight, clock: int)
    requires f.id in s.rows && RowsOk(s)
    requires s.rows[f.id].status.Queued? || s.rows[f.id].status.Retrying?
    requires s.rows[f.id].attempts < MAX_ATTEMPT_COUNT && f.attempt == s.rows[f.id].attempts + 1
    ensures RowsOk(s.(rows := s.rows[f.id := Claimed(s.rows[f.id], clock)], flights := s.flights + [f]))
  {
    forall other | other in s.rows
      ensures RowOk(s.(rows := s.rows[f.id := Claimed(s.rows[f.id], clock)], flights := s.flights + [f]), other)
    {
      ClaimKeepsRow(s, f, clock, other);
    }
  }

  lemma ClaimKeepsFlights(s: State, f: Flight, clock: int)
    requires f.id in s.rows && f == Flight(f.id, s.rows[f.id].attempts + 1, Requesting, false, false, false)
    requires s.rows[f.id].status.Queued? || s.rows[f.id].status.Retrying?
    requires FlightsOk(s)
    ensures FlightsOk(s.(rows := s.rows[f.id := Claimed(s.rows[f.id], clock)], flights := s.flights + [f]))
  {
    var s' := s.(rows := s.rows[f.id := Claimed(s.rows[f.id], clock)], flights := s.flights + [f]);
    forall k | 0 <= k < |s'.flights|
      ensures FlightOk(s', s'.flights[k])
    {
      if k < |s.flights| {
        assert FlightOk(s, s.flights[k]);
      }
    }
  }

  lemma ClaimKeepsInv(s: State, event: Event)
    requires Inv(s) && event.Claim? && Enabled(s, event)
    ensures Inv(Step(s, event))
  {
    if event.picked.Some? && s.rows[event.picked.value].attempts < MAX_ATTEMPT_COUNT {
      var id := event.picked.value;
      var f := Flight(id, s.rows[id].attempts + 1, Requesting, false, false, false);
      assert RowOk(s, id);
      ClaimKeepsRows(s, f, event.clock);
      ClaimKeepsFlights(s, f, event.clock);
      NumberedSnoc(s.flights, f);
    }
  }

  lemma MovedIsOk(s: State, f: Flight, event: Event)
    requires FlightOk(s, f) && (event.Build? || event.Respond? || event.Link?)
    requires event.Respond? ==> f.called
    requires event.Link? ==> f.place.Linking?
    requires !f.place.Returned?
    ensures FlightOk(s, Moved(f, event)) && Moves(f, Moved(f, event))
  {
  }

  lemma FlightKeepsInv(s: State, event: Event)
    requires Inv(s) && (event.Build? || event.Respond? || event.Link?) && Enabled(s, event)
    ensures Inv(Step(s, event))
  {
    MovedIsOk(s, s.flights[event.flight], event);
    MoveKeepsInv(s, event.flight, Moved(s.flights[event.flight], event));
  }

  lemma StepKeepsInv(s: State, event: Event)
    requires Inv(s) && Enabled(s, event)
    ensures Inv(Step(s, event))
  {
    match event
    case Enqueue(_, _, _) => EnqueueKeepsInv(s, event);
    case Claim(_, _, _, _) => ClaimKeepsInv(s, event);
    case Mark(_, _, _) => MarkKeepsInv(s, event);
    case _ => FlightKeepsInv(s, event);
  }

  // ---------------------------------------------------------------- runs

  /** An event that is not enabled does not happen. */
  function After(s: State, events: seq<Event>): State {
    if events == [] then s else
    var before, event := After(s, events[..|events| - 1]), events[|events| - 1];
    if Enabled(before, event) then Step(before, event) else before
  }

  lemma {:induction false} RunKeepsInv(s: State, events: seq<Event>)
    requires Inv(s)
    ensures Inv(After(s, events))
  {
    if events != [] {
      var before, event := After(s, events[..|events| - 1]), events[|events| - 1];
      RunKeepsInv(s, events[..|events| - 1]);
      if Enabled(before, event) {
        StepKeepsInv(before, event);
      }
    }
  }

  function Start(config: Config): State {
    State(config, map[], [])
  }

  lemma StepKeepsTerminal(s: State, event: Event, id: nat)
    requires Enabled(s, event) && id in s.rows && IsTerminal(s.rows[id].status)
    ensures id in Step(s, event).rows && Step(s, event).rows[id] == s.rows[id]
  {
  }

  /** A sent, failed or disabled event keeps its row, and so its count of claims, over any run. */
  lemma {:induction false} TerminalIsPermanent(s: State, events: seq<Event>, id: nat)
    requires Inv(s) && id in s.rows && IsTerminal(s.rows[id].status)
    ensures id in After(s, events).rows && After(s, events).rows[id] == s.rows[id]
    ensures Claims(After(s, events).flights, id) == Claims(s.flights, id)
  {
    if events != [] {
      var before, event := After(s, events[..|events| - 1]), events[|events| - 1];
      TerminalIsPermanent(s, events[..|events| - 1], id);
      if Enabled(before, event) {
        StepKeepsTerminal(before, event, id);
      }
    }
    RunKeepsInv(s, events);
    assert RowOk(s, id) && RowOk(After(s, events), id);
  }

  lemma {:induction false} CallsAreClaimed(flights: seq<Flight>, id: nat)
    ensures Calls(flights, id) <= Claims(flights, id)
  {
    if flights != [] {
      CallsAreClaimed(flights[..|flights| - 1], id);
    }
  }

  /** What a row of any reachable outbox says about the calls made for it. */
  lemma ReachableRow(config: Config, events: seq<Event>, id: nat)
    requires id in After(Start(config), events).rows
    ensures var s := After(Start(config), events);
            && s.rows[id].attempts == Claims(s.flights, id) >= Calls(s.flights, id)
            && (s.rows[id].status.Sent? ==> SomeAccepted(s.flights, id))
            && (s.rows[id].status.Failed? ==> s.rows[id].attempts >= MAX_ATTEMPTS)
            && (s.rows[id].status.Queued? || s.rows[id].status.Disabled? ==> Calls(s.flights, id) == 0)
            && (s.rows[id].key.target.InvoiceReconciliation? ==> s.rows[id].status.Disabled?)
  {
    var s := After(Start(config), events);
    RunKeepsInv(Start(config), events);
    assert RowOk(s, id);
    CallsAreClaimed(s.flights, id);
  }

  // ---------------------------------------------------------------- enqueuing again

  /** In every reachable outbox a key is refused exactly when its one row is not retrying. */
  lemma RefusedIff(config: Config, events: seq<Event>, id: nat)
    requires id in After(Start(config), events).rows
    ensures var rows := After(Start(config), events).rows;
            Refuses(rows, rows[id].key) <==> !rows[id].status.Retrying?
  {
    RunKeepsInv(Start(config), events);
  }

  /** So enqueuing an event twice in a row raises, whatever the event. */
  lemma EnqueuedTwiceIsRefused(config: Config, id: nat, key: Key, now: int)
    ensures Refuses(After(Start(config), [Enqueue(id, key, now)]).rows, key)
  {
    var s := After(Start(config), [Enqueue(id, key, now)]);
    AfterNext(Start(config), [], Start(config), Enqueue(id, key, now));
    assert [] + [Enqueue(id, key, now)] == [Enqueue(id, key, now)];
    assert s.rows[id] == NewRow(config, key, now);
  }

  // ---------------------------------------------------------------- five calls, when marks take effect

  /** A row claimed a sixth time has no flight past its fifth claim whose mark took effect. */
  lemma ClaimPastTheLimit(s: State, event: Event, k: nat)
    requires Inv(s) && event.Claim? && Enabled(s, event) && event.picked.Some?
    requires k < |s.flights| && s.flights[k].id == event.picked.value && s.flights[k].attempt >= MAX_ATTEMPTS
    ensures !s.flights[k].marked
  {
    assert FlightOk(s, s.flights[k]);
  }

  /** No flight at or past the limit of the claimed row still has its mark to come. */
  predicate Prompt(s: State, event: Event) {
    event.Claim? && event.picked.Some? ==>
      forall k | 0 <= k < |s.flights| && s.flights[k].id == event.picked.value
      && s.flights[k].attempt >= MAX_ATTEMPTS ::
        s.flights[k].marked
  }

  /** Every claim of the run is prompt when it happens. */
  predicate PromptRun(s: State, events: seq<Event>) {
    events == [] ||
    var before, event := After(s, events[..|events| - 1]), events[|events| - 1];
    PromptRun(s, events[..|events| - 1]) && (Enabled(before, event) ==> Prompt(before, event))
  }

  ghost predicate WithinLimit(s: State) {
    forall id | id in s.rows :: s.rows[id].attempts <= MAX_ATTEMPTS
  }

  /** A row claimable at its limit has a flight there whose mark has not taken effect. */
  lemma LimitNeedsUnmarked(s: State, id: nat)
    requires Inv(s) && id in s.rows && s.rows[id].attempts >= MAX_ATTEMPTS && !IsTerminal(s.rows[id].status)
    ensures exists k | 0 <= k < |s.flights| ::
              s.flights[k].id == id && s.flights[k].attempt >= MAX_ATTEMPTS && !s.flights[k].marked
  {
    assert RowOk(s, id);
    var k :| 0 <= k < |s.flights| && s.flights[k].id == id && s.flights[k].attempt == s.rows[id].attempts;
    assert FlightOk(s, s.flights[k]);
  }

  lemma BelowLimitIsPrompt(s: State, event: Event)
    requires Inv(s) && event.Claim? && event.picked.Some? && event.picked.value in s.rows
    requires s.rows[event.picked.value].attempts < MAX_ATTEMPTS
    ensures Prompt(s, event)
  {
    forall k | 0 <= k < |s.flights| && s.flights[k].id == event.picked.value
      ensures s.flights[k].attempt < MAX_ATTEMPTS
    {
      assert FlightOk(s, s.flights[k]);
    }
  }

  /** Exactly the prompt claims keep every row within its limit, and no other event endangers it. */
  lemma PromptStepIff(s: State, event: Event)
    requires Inv(s) && WithinLimit(s) && Enabled(s, event)
    ensures WithinLimit(Step(s, event)) <==> Prompt(s, event)
  {
    if event.Claim? && event.picked.Some? {
      var id := event.picked.value;
      if s.rows[id].attempts >= MAX_ATTEMPTS {
        LimitNeedsUnmarked(s, id);
        assert Step(s, event).rows[id].attempts > MAX_ATTEMPTS;
      } else {
        BelowLimitIsPrompt(s, event);
      }
    }
  }

  lemma AttemptsGrow(s: State, event: Event, id: nat)
    requires Enabled(s, event) && id in s.rows
    ensures id in Step(s, event).rows && s.rows[id].attempts <= Step(s, event).rows[id].attempts
  {
  }

  lemma LimitStaysPassed(s: State, event: Event)
    requires Enabled(s, event) && !WithinLimit(s)
    ensures !WithinLimit(Step(s, event))
  {
    var id :| id in s.rows && s.rows[id].attempts > MAX_ATTEMPTS;
    AttemptsGrow(s, event, id);
  }

  /** No event is claimed more than five times exactly in the runs whose claims are all prompt. */
  lemma {:induction false} PromptRunIff(config: Config, events: seq<Event>)
    ensures WithinLimit(After(Start(config), events)) <==> PromptRun(Start(config), events)
  {
    if events != [] {
      var before, event := After(Start(config), events[..|events| - 1]), events[|events| - 1];
      PromptRunIff(config, events[..|events| - 1]);
      RunKeepsInv(Start(config), events[..|events| - 1]);
      if Enabled(before, event) {
        if WithinLimit(before) {
          PromptStepIff(before, event);
        } else {
          LimitStaysPassed(before, event);
        }
      }
    }
  }

  /** In those runs no event gets more than five calls. */
  lemma PromptRunsCallFiveTimes(config: Config, events: seq<Event>, id: nat)
    requires PromptRun(Start(config), events) && id in After(Start(config), events).rows
    ensures Calls(After(Start(config), events).flights, id) <= MAX_ATTEMPTS
  {
    PromptRunIff(config, events);
    ReachableRow(config, events, id);
  }

  // ---------------------------------------------------------------- and more when they do not

  const LIVE := Config(true, true)
  const KEY := Key(0, NotificationHub, 0)

  /** n workers have claimed row 0 in turn, each when the lease before ended, sent its request, and stopped. */
  function Stalled(n: nat): State
    requires n >= 1
  {
    State(LIVE, map[0 := Row(KEY, Retrying, n, Some(n * LEASE_MS), 0)],
          seq(n, (i: nat) => Flight(0, i + 1, Fetching, true, false, false)))
  }

  /** The claim that follows n others, by the clocks of a worker and a database that agree. */
  function ClaimAfter(n: nat): Event {
    Claim(Some(0), n * LEASE_MS, n * LEASE_MS, {})
  }

  function StallingRun(n: nat): seq<Event> {
    if n == 0 then [Enqueue(0, KEY, 0)] else
    StallingRun(n - 1) + [ClaimAfter(n - 1)] + [Build(n - 1, true)]
  }

  lemma AfterNext(s: State, events: seq<Event>, before: State, event: Event)
    requires After(s, events) == before && Enabled(before, event)
    ensures After(s, events + [event]) == Step(before, event)
  {
    assert (events + [event])[..|events|] == events;
  }

  function StalledBy(n: nat): State {
    if n == 0 then State(LIVE, map[0 := NewRow(LIVE, KEY, 0)], []) else Stalled(n)
  }

  lemma StallOnce(n: nat)
    requires n < MAX_ATTEMPT_COUNT
    ensures Enabled(StalledBy(n), ClaimAfter(n))
    ensures var claimed := Step(StalledBy(n), ClaimAfter(n));
            Enabled(claimed, Build(n, true)) && Step(claimed, Build(n, true)) == Stalled(n + 1)
  {
    var before := StalledBy(n);
    var claimed := Step(before, ClaimAfter(n));
    assert claimed.flights == before.flights + [Flight(0, n + 1, Requesting, false, false, false)];
    assert claimed.rows[0].nextAttempt == Some((n + 1) * LEASE_MS);
    assert Step(claimed, Build(n, true)).flights == Stalled(n + 1).flights;
  }

  lemma StallNext(events: seq<Event>, n: nat)
    requires n < MAX_ATTEMPT_COUNT && After(Start(LIVE), events) == StalledBy(n)
    ensures After(Start(LIVE), events + [ClaimAfter(n)] + [Build(n, true)]) == Stalled(n + 1)
  {
    StallOnce(n);
    var claimed := Step(StalledBy(n), ClaimAfter(n));
    AfterNext(Start(LIVE), events, StalledBy(n), ClaimAfter(n));
    AfterNext(Start(LIVE), events + [ClaimAfter(n)], claimed, Build(n, true));
  }

  lemma {:induction false} StallingRunStalls(n: nat)
    requires n <= MAX_ATTEMPT_COUNT
    ensures After(Start(LIVE), StallingRun(n)) == StalledBy(n)
  {
    if n == 0 {
      AfterNext(Start(LIVE), [], Start(LIVE), Enqueue(0, KEY, 0));
      assert [] + [Enqueue(0, KEY, 0)] == StallingRun(0);
    } else {
      StallingRunStalls(n - 1);
      StallNext(StallingRun(n - 1), n - 1);
    }
  }

  lemma {:induction false} AllCalled(flights: seq<Flight>, id: nat)
    requires forall k | 0 <= k < |flights| :: flights[k].id == id && flights[k].called
    ensures Calls(flights, id) == |flights|
  {
    if flights != [] {
      AllCalled(flights[..|flights| - 1], id);
    }
  }

  /** Workers that stop before their mark: any number of calls up to the bound of the attempt_count check. */
  lemma StoppedWorkersCallAgain(n: nat)
    requires 1 <= n <= MAX_ATTEMPT_COUNT
    ensures Calls(After(Start(LIVE), StallingRun(n)).flights, 0) == n
  {
    StallingRunStalls(n);
    AllCalled(Stalled(n).flights, 0);
  }

  /** Every claim of the run finds the row first among the due rows that no transaction holds. */
  predicate FirstInLine(s: State, events: seq<Event>, id: nat) {
    events == [] ||
    var before, event := After(s, events[..|events| - 1]), events[|events| - 1];
    && FirstInLine(s, events[..|events| - 1], id)
    && (event.Claim? ==> id in before.rows && IsNext(before.rows, id, event.now, event.locked))
  }

  lemma FullRowRefuses(s: State, id: nat, event: Event)
    requires id in s.rows && s.rows[id].attempts >= MAX_ATTEMPT_COUNT
    requires event.Claim? && Enabled(s, event) && IsNext(s.rows, id, event.now, event.locked)
    ensures Step(s, event) == s
  {
    NextIsUnique(s.rows, id, event.picked.value, event.now, event.locked);
  }

  lemma OtherStepsClaimNothing(s: State, id: nat, event: Event)
    requires id in s.rows && !event.Claim? && Enabled(s, event)
    ensures var s' := Step(s, event);
            && |s'.flights| == |s.flights|
            && id in s'.rows && s'.rows[id].attempts == s.rows[id].attempts
  {
  }

  /** A row at that bound which stays first in line blocks the whole outbox: no claim of the run starts a flight. */
  lemma {:induction false} FullRowBlocks(s: State, events: seq<Event>, id: nat)
    requires id in s.rows && s.rows[id].attempts == MAX_ATTEMPT_COUNT && FirstInLine(s, events, id)
    ensures var s' := After(s, events);
            && |s'.flights| == |s.flights|
            && id in s'.rows && s'.rows[id].attempts == MAX_ATTEMPT_COUNT
  {
    if events != [] {
      var before, event := After(s, events[..|events| - 1]), events[|events| - 1];
      FullRowBlocks(s, events[..|events| - 1], id);
      if Enabled(before, event) {
        if event.Claim? {
          FullRowRefuses(before, id, event);
        } else {
          OtherStepsClaimNothing(before, id, event);
        }
      }
    }
  }

  lemma {:induction false} Pow2Grows(m: nat, n: nat)
    requires m <= n
    ensures Pow2(m) <= Pow2(n)
  {
    if m < n {
      Pow2Grows(m, n - 1);
    }
  }

  /** The delay doubles with each attempt until it stays at one hour, from the thirteenth on. */
  lemma BackoffDoubles(attempt: nat)
    ensures BackoffMs(1) == 1000
    ensures attempt >= 1 ==> BackoffMs(attempt + 1) == Min(MAX_BACKOFF_MS, 2 * BackoffMs(attempt))
    ensures BackoffMs(attempt) == MAX_BACKOFF_MS <==> attempt >= 13
  {
    assert Pow2(10) == 1024;
    assert Pow2(12) == 4096;
    if attempt >= 13 {
      Pow2Grows(12, attempt - 1);
    } else {
      Pow2Grows(Max(0, attempt - 1), 11);
    }
  }
}
