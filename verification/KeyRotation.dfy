/**
 * The three transactions that write API keys and their origins: first-run setup
 * (core/tenant/initialization.ts), registration (core/tenant/registration-repository.ts) and
 * rotation (core/tenant/api-key-rotation-repository.ts with core/tenant/rotation-audit-writer.ts);
 * the reader that collects their rows (core/tenant/initialization-rotation-state.ts), and the
 * proof of when what it reads satisfies the validator.
 */
module KeyRotation {
  import opened Common
  import opened RotationChain
  import Text

  /** FIRST_RUN_API_KEY_NOTE, the note by which the first key is found again. */
  const MARKER_NOTE := "system:first-run:v1"
  const INITIAL_KEY_NOTE := "Initial analyst automation key"

  datatype RotateInput = RotateInput(
    tenantId: string, actorUserId: string, requestId: string, apiKeyId: string, note: Option<string>, keyHash: string)

  /** What the database supplies: transaction_timestamp() as text and gen_random_uuid(). */
  datatype TxContext = TxContext(timestamp: string, newId: string)

  /** The statement that fails; CommitUnacknowledged took effect although the client saw an error. */
  datatype Fault = NoFault | ConnectFails | BeginFails | SelectFails | TimestampFails | RevokeFails
                 | InsertFails | AuditFails | CommitFails | CommitUnacknowledged

  datatype RotateResult = Committed(revoked: KeyRow, replacement: KeyRow) | NotFound | Unavailable

  /**
   * The committed rows: api_keys with their notes alongside, the keys of the succeeded
   * registration_requests, and the rotation rows of audit_log.
   */
  datatype Db = Db(keys: seq<KeyRow>, notes: seq<Option<string>>, registrations: seq<Origin>, audits: seq<AuditRow>)

  const EMPTY := Db([], [], [], [])

  function FindLive(keys: seq<KeyRow>, tenantId: string, id: string): (r: Option<nat>)
    ensures r.Some? ==> r.value < |keys| && IsLive(keys[r.value], tenantId, id)
    ensures r.None? ==> forall i | 0 <= i < |keys| :: !IsLive(keys[i], tenantId, id)
  {
    if keys == [] then None
    else if IsLive(keys[|keys| - 1], tenantId, id) then Some(|keys| - 1)
    else FindLive(keys[..|keys| - 1], tenantId, id)
  }

  predicate IsLive(row: KeyRow, tenantId: string, id: string) {
    row.tenantId == tenantId && row.id == id && row.revokedAt.None?
  }

  /** The row insertRotationAudit writes, as the validator's query reads it back. */
  function RotationAudit(input: RotateInput, oldKey: KeyRow, timestamp: string, replacement: KeyRow): AuditRow {
    AuditRow(
      input.tenantId, Some(input.actorUserId), Some(input.tenantId), "user", "api_key.rotated", "api_key",
      Some(oldKey.id), Some(input.requestId), timestamp,
      OldValues(oldKey.createdAt), NewValues(timestamp, replacement.id, replacement.createdAt))
  }

  function Replacement(input: RotateInput, tx: TxContext): KeyRow {
    KeyRow(tx.newId, input.tenantId, Some(input.keyHash), tx.timestamp, None)
  }

  /** Primary key and key_hash uniqueness. */
  predicate Insertable(keys: seq<KeyRow>, row: KeyRow) {
    row.id != "" && forall other | other in keys :: other.id != row.id && other.keyHash != row.keyHash
  }

  /** api_keys_note_trimmed_check. */
  predicate NoteAllowed(note: Option<string>) {
    note.Some? ==> note.value != "" && Text.IsBtrimmed(note.value)
  }

  /** The CHECK constraints of audit_log on these columns. */
  predicate Recordable(input: RotateInput) {
    input.actorUserId != "" && input.requestId != "" && Text.IsBtrimmed(input.requestId)
  }

  /** The rows after a rotation in which every statement succeeds, if they can all succeed. */
  function Rotated(db: Db, input: RotateInput, tx: TxContext): Option<Db> {
    var found := FindLive(db.keys, input.tenantId, input.apiKeyId);
    if found.None? || tx.timestamp == "" then None else
    var oldKey := db.keys[found.value];
    var keys := db.keys[found.value := oldKey.(revokedAt := Some(tx.timestamp))];
    var row := Replacement(input, tx);
    if !Insertable(keys, row) || !NoteAllowed(input.note) || !Recordable(input) then None else
    Some(db.(keys := keys + [row], notes := db.notes + [input.note],
             audits := db.audits + [RotationAudit(input, oldKey, tx.timestamp, row)]))
  }

  predicate TakesEffect(fault: Fault) {
    fault.NoFault? || fault.CommitUnacknowledged?
  }

  /** What first-run setup and registration insert: a key of a new tenant, with generated secrets. */
  datatype NewKey = NewKey(tenantId: string, keyHash: string, tx: TxContext)

  function FirstKey(input: NewKey): KeyRow {
    KeyRow(input.tx.newId, input.tenantId, Some(input.keyHash), input.tx.timestamp, None)
  }

  function OriginOf(input: NewKey): Origin {
    Origin(input.tx.newId, input.tenantId)
  }

  /** createState runs only in a database without keys and registrations. */
  predicate IsFresh(db: Db) {
    db.keys == [] && db.registrations == []
  }

  function WithKey(db: Db, input: NewKey, note: string): Db {
    db.(keys := db.keys + [FirstKey(input)], notes := db.notes + [Some(note)])
  }

  datatype Event =
    | FirstRun(key: NewKey, fault: Fault)
    | Register(key: NewKey, fault: Fault)
    | Rotate(input: RotateInput, tx: TxContext, fault: Fault)

  /** Whether the transaction commits: its fault allows it and no statement is refused. */
  predicate Commits(db: Db, event: Event) {
    match event
    case FirstRun(key, fault) => TakesEffect(fault) && IsFresh(db) && Insertable(db.keys, FirstKey(key))
    case Register(key, fault) => TakesEffect(fault) && Insertable(db.keys, FirstKey(key))
    case Rotate(input, tx, fault) => TakesEffect(fault) && Rotated(db, input, tx).Some?
  }

  function StepDb(db: Db, event: Event): Db {
    if !Commits(db, event) then db else
    match event
    case FirstRun(key, _) => WithKey(db, key, MARKER_NOTE)
    case Register(key, _) =>
      WithKey(db, key, INITIAL_KEY_NOTE).(registrations := db.registrations + [OriginOf(key)])
    case Rotate(input, tx, _) => Rotated(db, input, tx).value
  }

  class ApiKeyStore {
    var keys: seq<KeyRow>
    var notes: seq<Option<string>>
    var registrations: seq<Origin>
    var audits: seq<AuditRow>

    function Contents(): Db
      reads this
    {
      Db(keys, notes, registrations, audits)
    }

    constructor ()
      ensures Contents() == EMPTY
    {
      keys, notes, registrations, audits := [], [], [], [];
    }

    /** createState, behind the check that nothing exists yet. */
    method InitializeFirstRun(input: NewKey, fault: Fault) returns (created: bool)
      modifies this
      ensures Contents() == StepDb(old(Contents()), FirstRun(input, fault))
      ensures created <==> fault.NoFault? && IsFresh(old(Contents())) && Insertable(old(keys), FirstKey(input))
    {
      if keys != [] || registrations != [] || !TakesEffect(fault) || !Insertable(keys, FirstKey(input)) {
        return false;
      }
      keys, notes := keys + [FirstKey(input)], notes + [Some(MARKER_NOTE)];
      return fault.NoFault?;
    }

    /** The registration transaction past its idempotency checks: key and succeeded ledger row together. */
    method RegisterTransaction(input: NewKey, fault: Fault) returns (created: bool)
      modifies this
      ensures Contents() == StepDb(old(Contents()), Register(input, fault))
      ensures created <==> fault.NoFault? && Insertable(old(keys), FirstKey(input))
    {
      if !TakesEffect(fault) || !Insertable(keys, FirstKey(input)) {
        return false;
      }
      keys, notes := keys + [FirstKey(input)], notes + [Some(INITIAL_KEY_NOTE)];
      registrations := registrations + [OriginOf(input)];
      return fault.NoFault?;
    }

    /** rotateTransaction: all its writes or none, whatever statement fails. */
    method RotateTransaction(input: RotateInput, tx: TxContext, fault: Fault) returns (r: RotateResult)
      modifies this
      ensures Contents() == StepDb(old(Contents()), Rotate(input, tx, fault))
      ensures r.Committed? <==> fault.NoFault? && Rotated(old(Contents()), input, tx).Some?
      ensures r.Committed? ==>
                && r.replacement == Contents().keys[|old(keys)|] == Replacement(input, tx)
                && r.revoked in Contents().keys && r.revoked.id == input.apiKeyId
                && r.revoked.revokedAt == Some(tx.timestamp)
    {
      if fault.ConnectFails? || fault.BeginFails? { return Unavailable; }
      var open := true;
      var txKeys, txNotes, txAudits := keys, notes, audits;
      r := Unavailable;
      if !fault.SelectFails? {
        var found := FindLive(txKeys, input.tenantId, input.apiKeyId);
        if found.None? {
          r := NotFound;
        } else if !fault.TimestampFails? && tx.timestamp != "" && !fault.RevokeFails? {
          var oldKey := txKeys[found.value];
          var revoked := oldKey.(revokedAt := Some(tx.timestamp));
          txKeys := txKeys[found.value := revoked];
          var row := Replacement(input, tx);
          if !fault.InsertFails? && Insertable(txKeys, row) && NoteAllowed(input.note) {
            txKeys, txNotes := txKeys + [row], txNotes + [input.note];
            if !fault.AuditFails? && Recordable(input) {
              txAudits := txAudits + [RotationAudit(input, oldKey, tx.timestamp, row)];
              if !fault.CommitFails? {
                keys, notes, audits := txKeys, txNotes, txAudits;
                open := false;
                assert keys[found.value] == revoked;
                if fault.NoFault? { r := Committed(revoked, row); }
              }
            }
          }
        }
      }
      if open {
        // ROLLBACK: the working copies are dropped.
        txKeys, txNotes, txAudits := keys, notes, audits;
      }
    }
  }

  // ---------------------------------------------------------------- the reader

  /** SELECT ... FROM api_keys WHERE note = $1. */
  function MarkerOrigins(keys: seq<KeyRow>, notes: seq<Option<string>>): seq<Origin>
    requires |keys| == |notes|
  {
    if keys == [] then [] else
    var n := |keys| - 1;
    MarkerOrigins(keys[..n], notes[..n]) +
    (if notes[n] == Some(MARKER_NOTE) then [Origin(keys[n].id, keys[n].tenantId)] else [])
  }

  predicate Aligned(db: Db) {
    |db.keys| == |db.notes|
  }

  /** UNION ALL with the succeeded registrations. */
  function ReadOrigins(db: Db): seq<Origin>
    requires Aligned(db)
  {
    MarkerOrigins(db.keys, db.notes) + db.registrations
  }

  function StateOf(origins: seq<Origin>, db: Db): State {
    State(origins, db.keys, db.audits)
  }

  /** The reader refuses unless there is exactly one marker; the validator judges the rest. */
  ghost predicate HistoryReads(db: Db)
    requires Aligned(db)
  {
    |MarkerOrigins(db.keys, db.notes)| == 1 && Accepts(StateOf(ReadOrigins(db), db))
  }

  datatype Reading = Unreadable | Reading(markerKeyId: string, byOrigin: map<string, string>)

  /** readInitializationRotationState and validateApiKeyRotationChains, as setup calls them. */
  method ReadHistory(db: Db) returns (r: Reading)
    requires Aligned(db)
    ensures r.Reading? <==> HistoryReads(db)
    ensures r.Reading? ==> r.markerKeyId == ReadOrigins(db)[0].keyId
    ensures r.Reading? ==> forall links, chains | CanonicalHistory(StateOf(ReadOrigins(db), db), links, chains) ::
              r.byOrigin == CurrentKeys(ReadOrigins(db), chains)
  {
    var markers := MarkerOrigins(db.keys, db.notes);
    if |markers| != 1 {
      return Unreadable;
    }
    var outcome := ValidateApiKeyRotationChains(StateOf(ReadOrigins(db), db));
    if outcome.Ambiguous? {
      return Unreadable;
    }
    return Reading(markers[0].keyId, outcome.byOrigin);
  }

  // ---------------------------------------------------------------- runs

  function Run(events: seq<Event>): Db {
    if events == [] then EMPTY else StepDb(Run(events[..|events| - 1]), events[|events| - 1])
  }

  /** The origins that the committed first-run setup and registrations created, in order. */
  function Created(events: seq<Event>): seq<Origin> {
    if events == [] then [] else
    var front, last := events[..|events| - 1], events[|events| - 1];
    Created(front) + if !last.Rotate? && Commits(Run(front), last) then [OriginOf(last.key)] else []
  }

  predicate CanonicalRequestId(audit: AuditRow) {
    audit.requestId.Some? && audit.requestId.value != "" && Text.Trim(audit.requestId.value) == audit.requestId.value
  }

  predicate CanonicalHash(row: KeyRow) {
    row.keyHash.Some? ==> IsSha256Hex(row.keyHash.value)
  }

  /** What the validator demands of text the transaction passes through unchecked. */
  predicate CanonicalText(db: Db) {
    && (forall audit | audit in db.audits :: CanonicalRequestId(audit))
    && (forall row | row in db.keys :: CanonicalHash(row))
  }

  // The pass-through text replaced by canonical text, so that only structure is left to judge.

  function PlainAudit(audit: AuditRow): AuditRow {
    audit.(requestId := Some("r"))
  }

  function PlainKey(row: KeyRow): KeyRow {
    row.(keyHash := None)
  }

  function PlainAudits(audits: seq<AuditRow>): seq<AuditRow> {
    seq(|audits|, i requires 0 <= i < |audits| => PlainAudit(audits[i]))
  }

  function PlainKeys(keys: seq<KeyRow>): seq<KeyRow> {
    seq(|keys|, i requires 0 <= i < |keys| => PlainKey(keys[i]))
  }

  function Plain(origins: seq<Origin>, db: Db): State {
    State(origins, PlainKeys(db.keys), PlainAudits(db.audits))
  }

  lemma PlainKeyMap(keys: seq<KeyRow>)
    requires UniqueIds(keys, KeyId)
    ensures UniqueIds(PlainKeys(keys), KeyId)
    ensures MapBy(PlainKeys(keys), KeyId).Keys == MapBy(keys, KeyId).Keys
    ensures forall id | id in MapBy(keys, KeyId) ::
            MapBy(PlainKeys(keys), KeyId)[id] == PlainKey(MapBy(keys, KeyId)[id])
  {
    if keys != [] {
      var n := |keys| - 1;
      PlainKeyMap(keys[..n]);
      assert PlainKeys(keys)[..n] == PlainKeys(keys[..n]);
    }
  }

  /** Canonical structure and canonical text together are what the validator accepts. */
  lemma PlainDocuments(audits: seq<AuditRow>, keys: map<string, KeyRow>, plainKeys: map<string, KeyRow>,
      links: seq<Link>)
    requires plainKeys.Keys == keys.Keys
    requires forall id | id in keys :: plainKeys[id] == PlainKey(keys[id])
    ensures DocumentedLinks(audits, keys, links) <==>
            DocumentedLinks(PlainAudits(audits), plainKeys, links)
            && forall audit | audit in audits :: CanonicalRequestId(audit)
  {
    forall x | 0 <= x < |links| && x < |audits| && links[x].oldId in keys && links[x].replacementId in keys
      ensures Documents(audits[x], keys[links[x].oldId], keys[links[x].replacementId]) <==>
              && Documents(PlainAudits(audits)[x], plainKeys[links[x].oldId], plainKeys[links[x].replacementId])
              && CanonicalRequestId(audits[x])
    {
      PlainHeader(audits[x]);
    }
    if DocumentedLinks(audits, keys, links) {
      forall audit | audit in audits
        ensures CanonicalRequestId(audit)
      {
        var x :| 0 <= x < |audits| && audits[x] == audit;
        assert links[x].oldId in keys;
      }
    }
  }

  lemma PlainHeader(audit: AuditRow)
    ensures CanonicalHeader(audit) <==> CanonicalHeader(PlainAudit(audit)) && CanonicalRequestId(audit)
  {
    assert Text.TrimStart("r") == "r" && Text.TrimEnd("r") == "r";
  }

  lemma PlainPartition(origins: seq<Origin>, keys: map<string, KeyRow>, plainKeys: map<string, KeyRow>,
      links: seq<Link>, chains: seq<seq<string>>)
    requires plainKeys.Keys == keys.Keys
    requires forall id | id in keys :: plainKeys[id] == PlainKey(keys[id])
    ensures ChainPartition(origins, keys, links, chains) <==> ChainPartition(origins, plainKeys, links, chains)
  {
    if |chains| == |origins| {
      assert RowsFollow(origins, keys, chains) <==> RowsFollow(origins, plainKeys, chains);
    }
    assert Covers(keys, chains) <==> Covers(plainKeys, chains);
  }

  lemma PlainHistory(origins: seq<Origin>, db: Db, links: seq<Link>, chains: seq<seq<string>>)
    requires UniqueIds(db.keys, KeyId)
    ensures CanonicalHistory(StateOf(origins, db), links, chains) <==>
            CanonicalHistory(Plain(origins, db), links, chains) && CanonicalText(db)
  {
    var keys, plainKeys := MapBy(db.keys, KeyId), MapBy(PlainKeys(db.keys), KeyId);
    PlainKeyMap(db.keys);
    PlainDocuments(db.audits, keys, plainKeys, links);
    PlainPartition(origins, keys, plainKeys, links, chains);
    assert forall row | row in PlainKeys(db.keys) :: row.keyHash.None?;
  }

  // ---------------------------------------------------------------- one rotation grows one chain

  lemma MapByUpdate(keys: seq<KeyRow>, n: nat, row: KeyRow)
    requires n < |keys| && row.id == keys[n].id && UniqueIds(keys, KeyId)
    ensures UniqueIds(keys[n := row], KeyId)
    ensures MapBy(keys[n := row], KeyId) == MapBy(keys, KeyId)[row.id := row]
  {
    var last := |keys| - 1;
    assert forall i | 0 <= i < |keys| :: KeyId(keys[n := row][i]) == KeyId(keys[i]);
    if n < last {
      MapByUpdate(keys[..last], n, row);
      assert keys[n := row][..last] == keys[..last][n := row];
      assert KeyId(keys[last]) != KeyId(keys[n]);
    } else {
      assert keys[n := row][..last] == keys[..last];
    }
  }

  lemma MapBySnoc(keys: seq<KeyRow>, row: KeyRow)
    ensures MapBy(keys + [row], KeyId) == MapBy(keys, KeyId)[row.id := row]
  {
    assert (keys + [row])[..|keys|] == keys;
  }

  ghost function Grown(chains: seq<seq<string>>, i: nat, id: string): seq<seq<string>>
    requires i < |chains|
  {
    chains[i := chains[i] + [id]]
  }

  lemma GrownAt(chains: seq<seq<string>>, i: nat, id: string)
    requires i < |chains|
    ensures forall i', j, id' :: At(Grown(chains, i, id), i', j, id') <==>
              At(chains, i', j, id') || (i' == i && j == |chains[i]| && id' == id)
    ensures chains[i] != [] ==> forall i', j, link :: Step(Grown(chains, i, id), i', j, link) <==>
              Step(chains, i', j, link) || (i' == i && j == |chains[i]| - 1 && link == Link(Last(chains[i]), id))
  {
  }

  lemma GrownLinks(links: seq<Link>, chains: seq<seq<string>>, i: nat, id: string)
    requires i < |chains| && chains[i] != [] && LinksAreSteps(links, chains)
    requires forall i, j :: !At(chains, i, j, id)
    ensures LinksAreSteps(links + [Link(Last(chains[i]), id)], Grown(chains, i, id))
  {
    var link := Link(Last(chains[i]), id);
    GrownAt(chains, i, id);
    forall x | 0 <= x < |links + [link]|
      ensures IsStep(Grown(chains, i, id), (links + [link])[x])
      ensures x < |links| ==> links[x] != link
    {
      if x < |links| {
        assert IsStep(chains, links[x]);
        var i', j' :| Step(chains, i', j', links[x]);
        assert Step(Grown(chains, i, id), i', j', links[x]);
        assert At(chains, i', j' + 1, links[x].replacementId);
      } else {
        assert Step(Grown(chains, i, id), i, |chains[i]| - 1, link);
      }
    }
    forall i', j, link' | Step(Grown(chains, i, id), i', j, link')
      ensures link' in links + [link]
    {
      if link' != link {
        assert Step(chains, i', j, link');
      }
    }
  }

  /** Revoking the last key of a chain and linking a new one to it keeps the partition. */
  lemma GrownPartition(
    origins: seq<Origin>, keys: map<string, KeyRow>, links: seq<Link>, chains: seq<seq<string>>,
    i: nat, revoked: KeyRow, row: KeyRow)
    requires ChainPartition(origins, keys, links, chains)
    requires i < |chains| && revoked.id == Last(chains[i]) && revoked.revokedAt.Some?
    requires revoked.tenantId == row.tenantId == origins[i].tenantId
    requires row.id !in keys && row.revokedAt.None?
    ensures ChainPartition(origins, keys[revoked.id := revoked][row.id := row],
                           links + [Link(revoked.id, row.id)], Grown(chains, i, row.id))
  {
    var keys', chains' := keys[revoked.id := revoked][row.id := row], Grown(chains, i, row.id);
    GrownAt(chains, i, row.id);
    assert At(chains, i, |chains[i]| - 1, revoked.id);
    assert forall i', j :: !At(chains, i', j, row.id);
    GrownLinks(links, chains, i, row.id);
    assert Disjoint(chains');
    forall i', j, id | At(chains', i', j, id)
      ensures id in keys' && keys'[id].tenantId == origins[i'].tenantId
      ensures keys'[id].revokedAt.None? <==> j == |chains'[i']| - 1
    {
      if At(chains, i', j, id) && id == revoked.id {
        assert i' == i && j == |chains[i]| - 1;
      }
    }
    forall id | id in keys'
      ensures exists i', j :: At(chains', i', j, id)
    {
      if id == row.id {
        assert At(chains', i, |chains[i]|, id);
      } else {
        var i', j :| At(chains, i', j, id);
        assert At(chains', i', j, id);
      }
    }
  }

  ghost predicate Consistent(origins: seq<Origin>, db: Db, links: seq<Link>, chains: seq<seq<string>>) {
    UniqueIds(db.keys, KeyId) && CanonicalHistory(Plain(origins, db), links, chains)
  }

  /** Plain rows are canonical wherever their structure is. */
  lemma HistoryIsConsistent(origins: seq<Origin>, db: Db, links: seq<Link>, chains: seq<seq<string>>)
    requires UniqueIds(db.keys, KeyId) && UniqueIds(origins, OriginId)
    requires DocumentedLinks(PlainAudits(db.audits), MapBy(PlainKeys(db.keys), KeyId), links)
    requires ChainPartition(origins, MapBy(PlainKeys(db.keys), KeyId), links, chains)
    ensures Consistent(origins, db, links, chains)
  {
    PlainKeyMap(db.keys);
    assert forall key | key in PlainKeys(db.keys) :: key.keyHash.None?;
  }

  lemma GrownDocuments(
    audits: seq<AuditRow>, keys: map<string, KeyRow>, links: seq<Link>, audit: AuditRow, oldKey: KeyRow,
    revoked: KeyRow, row: KeyRow)
    requires DocumentedLinks(audits, keys, links)
    requires oldKey.id in keys && keys[oldKey.id] == oldKey && oldKey.revokedAt.None?
    requires revoked == oldKey.(revokedAt := revoked.revokedAt) && row.id !in keys
    requires Documents(audit, revoked, row)
    ensures DocumentedLinks(audits + [audit], keys[revoked.id := revoked][row.id := row],
            links + [Link(revoked.id, row.id)])
  {
    var keys' := keys[revoked.id := revoked][row.id := row];
    forall x | 0 <= x < |links|
      ensures Documents(audits[x], keys'[links[x].oldId], keys'[links[x].replacementId])
    {
      assert Documents(audits[x], keys[links[x].oldId], keys[links[x].replacementId]);
    }
  }

  /** The key map after revoking row n and inserting the replacement. */
  lemma RotatedKeyMap(keys: seq<KeyRow>, n: nat, revoked: KeyRow, row: KeyRow)
    requires n < |keys| && revoked.id == keys[n].id && UniqueIds(keys, KeyId)
    requires Insertable(keys[n := revoked], row)
    ensures UniqueIds(keys[n := revoked] + [row], KeyId)
    ensures row.id !in MapBy(PlainKeys(keys), KeyId)
    ensures UniqueIds(PlainKeys(keys[n := revoked] + [row]), KeyId)
    ensures MapBy(PlainKeys(keys[n := revoked] + [row]), KeyId) ==
            MapBy(PlainKeys(keys), KeyId)[revoked.id := PlainKey(revoked)][row.id := PlainKey(row)]
  {
    RotatedUniqueIds(keys, n, revoked, row);
    PlainKeyMap(keys);
    MapByUpdate(PlainKeys(keys), n, PlainKey(revoked));
    MapBySnoc(PlainKeys(keys)[n := PlainKey(revoked)], PlainKey(row));
    assert PlainKeys(keys[n := revoked] + [row]) == PlainKeys(keys)[n := PlainKey(revoked)] + [PlainKey(row)];
    forall k | 0 <= k < |keys|
      ensures KeyId(keys[k]) != row.id
    {
      assert keys[n := revoked][k] in keys[n := revoked];
    }
    KeyMapIsKeyed(keys);
  }

  lemma LookupPlain(keys: seq<KeyRow>, n: nat)
    requires n < |keys| && UniqueIds(keys, KeyId)
    ensures keys[n].id in MapBy(PlainKeys(keys), KeyId)
    ensures MapBy(PlainKeys(keys), KeyId)[keys[n].id] == PlainKey(keys[n])
  {
    PlainKeyMap(keys);
    KeyMapIsKeyed(keys);
    assert keys[n] in keys;
  }

  lemma LiveKeyEndsItsChain(
    origins: seq<Origin>, keys: map<string, KeyRow>, links: seq<Link>, chains: seq<seq<string>>, id: string)
    returns (i: nat)
    requires ChainPartition(origins, keys, links, chains)
    requires id in keys && keys[id].revokedAt.None?
    ensures i < |chains| && chains[i] != [] && Last(chains[i]) == id && keys[id].tenantId == origins[i].tenantId
  {
    var i', j :| At(chains, i', j, id);
    i := i';
  }

  lemma RotationIsDocumented(input: RotateInput, oldKey: KeyRow, timestamp: string, row: KeyRow)
    requires Recordable(input) && timestamp != "" && oldKey.id != "" && oldKey.id != row.id
    requires oldKey.tenantId == row.tenantId == input.tenantId
    ensures Documents(PlainAudit(RotationAudit(input, oldKey, timestamp, row)),
                      PlainKey(oldKey.(revokedAt := Some(timestamp))), PlainKey(row))
  {
    assert Text.TrimStart("r") == "r" && Text.TrimEnd("r") == "r";
  }

  /** The audit row of a committed rotation documents its link, and the earlier rows still document theirs. */
  lemma RotationDocumentsLink(origins: seq<Origin>, db: Db, input: RotateInput, tx: TxContext, links: seq<Link>,
      chains: seq<seq<string>>)
    requires Consistent(origins, db, links, chains) && Rotated(db, input, tx).Some?
    ensures var db' := Rotated(db, input, tx).value;
            DocumentedLinks(PlainAudits(db'.audits), MapBy(PlainKeys(db'.keys), KeyId),
              links + [Link(input.apiKeyId, tx.newId)])
  {
    var n := FindLive(db.keys, input.tenantId, input.apiKeyId).value;
    var oldKey, row := db.keys[n], Replacement(input, tx);
    var revoked := oldKey.(revokedAt := Some(tx.timestamp));
    var audit := RotationAudit(input, oldKey, tx.timestamp, row);
    LookupPlain(db.keys, n);
    RotatedKeyMap(db.keys, n, revoked, row);
    assert KeyId(db.keys[n]) != "";
    RotationIsDocumented(input, oldKey, tx.timestamp, row);
    GrownDocuments(PlainAudits(db.audits), MapBy(PlainKeys(db.keys), KeyId), links,
                   PlainAudit(audit), PlainKey(oldKey), PlainKey(revoked), PlainKey(row));
    assert PlainAudits(db.audits + [audit]) == PlainAudits(db.audits) + [PlainAudit(audit)];
  }

  /** A rotation that commits extends the rotated key's chain by the replacement. */
  lemma RotationGrowsChain(
    origins: seq<Origin>, db: Db, input: RotateInput, tx: TxContext, links: seq<Link>, chains: seq<seq<string>>)
    returns (i: nat)
    requires Consistent(origins, db, links, chains)
    requires Rotated(db, input, tx).Some?
    ensures i < |chains| && chains[i] != [] && Last(chains[i]) == input.apiKeyId
    ensures Consistent(origins, Rotated(db, input, tx).value, links + [Link(input.apiKeyId, tx.newId)],
            Grown(chains, i, tx.newId))
  {
    var n := FindLive(db.keys, input.tenantId, input.apiKeyId).value;
    var oldKey, row := db.keys[n], Replacement(input, tx);
    var revoked := oldKey.(revokedAt := Some(tx.timestamp));
    var keys := MapBy(PlainKeys(db.keys), KeyId);
    LookupPlain(db.keys, n);
    RotatedKeyMap(db.keys, n, revoked, row);
    i := LiveKeyEndsItsChain(origins, keys, links, chains, oldKey.id);
    GrownPartition(origins, keys, links, chains, i, PlainKey(revoked), PlainKey(row));
    RotationDocumentsLink(origins, db, input, tx, links, chains);
    HistoryIsConsistent(origins, Rotated(db, input, tx).value, links + [Link(input.apiKeyId, tx.newId)],
      Grown(chains, i, tx.newId));
  }

  lemma RotatedUniqueIds(keys: seq<KeyRow>, n: nat, revoked: KeyRow, row: KeyRow)
    requires n < |keys| && revoked.id == keys[n].id && UniqueIds(keys, KeyId)
    requires Insertable(keys[n := revoked], row)
    ensures UniqueIds(keys[n := revoked] + [row], KeyId)
    ensures UniqueIds(PlainKeys(keys[n := revoked] + [row]), KeyId)
  {
    MapByUpdate(keys, n, revoked);
    var updated := keys[n := revoked];
    forall k, l | 0 <= k < l < |updated + [row]|
      ensures KeyId((updated + [row])[k]) != KeyId((updated + [row])[l])
    {
      assert updated[k] in updated;
      if l < |updated| {
        assert KeyId(updated[k]) != KeyId(updated[l]);
      }
    }
    forall k | 0 <= k < |updated + [row]|
      ensures KeyId((updated + [row])[k]) != ""
    {
      if k < |updated| {
        assert KeyId(updated[k]) != "";
      }
    }
    PlainKeyMap(updated + [row]);
  }

  // ---------------------------------------------------------------- one insertion starts one chain

  lemma StartedAt(chains: seq<seq<string>>, id: string)
    ensures forall i, j, id' :: At(chains + [[id]], i, j, id') <==>
              At(chains, i, j, id') || (i == |chains| && j == 0 && id' == id)
    ensures forall i, j, link :: Step(chains + [[id]], i, j, link) <==> Step(chains, i, j, link)
  {
  }

  /** A new live key, no row's replacement, is an origin with a chain of its own. */
  lemma StartedPartition(
    origins: seq<Origin>, keys: map<string, KeyRow>, links: seq<Link>, chains: seq<seq<string>>, row: KeyRow)
    requires ChainPartition(origins, keys, links, chains)
    requires row.id !in keys && row.revokedAt.None?
    ensures ChainPartition(origins + [Origin(row.id, row.tenantId)], keys[row.id := row], links, chains + [[row.id]])
  {
    var keys', chains' := keys[row.id := row], chains + [[row.id]];
    StartedAt(chains, row.id);
    forall id | id in keys'
      ensures exists i, j :: At(chains', i, j, id)
    {
      if id == row.id {
        assert At(chains', |chains|, 0, id);
      } else {
        var i, j :| At(chains, i, j, id);
        assert At(chains', i, j, id);
      }
    }
    forall x | 0 <= x < |links|
      ensures IsStep(chains', links[x])
    {
      assert IsStep(chains, links[x]);
      var i, j :| Step(chains, i, j, links[x]);
      assert Step(chains', i, j, links[x]);
    }
  }

  lemma InsertedUniqueIds(keys: seq<KeyRow>, row: KeyRow)
    requires UniqueIds(keys, KeyId) && Insertable(keys, row)
    ensures UniqueIds(keys + [row], KeyId)
  {
    var keys' := keys + [row];
    forall k | 0 <= k < |keys'|
      ensures KeyId(keys'[k]) != ""
      ensures k < |keys| ==> KeyId(keys'[k]) != row.id
    {
      if k < |keys| {
        assert keys[k] in keys;
        assert KeyId(keys[k]) != "";
      }
    }
    forall k, l | 0 <= k < l < |keys'|
      ensures KeyId(keys'[k]) != KeyId(keys'[l])
    {
      if l < |keys| {
        assert KeyId(keys[k]) != KeyId(keys[l]);
      }
    }
  }

  lemma InsertedKeyMap(keys: seq<KeyRow>, row: KeyRow)
    requires UniqueIds(keys, KeyId) && Insertable(keys, row)
    ensures row.id !in MapBy(PlainKeys(keys), KeyId)
    ensures MapBy(PlainKeys(keys + [row]), KeyId) == MapBy(PlainKeys(keys), KeyId)[row.id := PlainKey(row)]
  {
    PlainKeyMap(keys);
    KeyMapIsKeyed(keys);
    MapBySnoc(PlainKeys(keys), PlainKey(row));
    assert PlainKeys(keys + [row]) == PlainKeys(keys) + [PlainKey(row)];
    forall id | id in MapBy(keys, KeyId)
      ensures id != row.id
    {
      assert MapBy(keys, KeyId)[id] in keys;
    }
  }

  lemma DocumentsStay(audits: seq<AuditRow>, keys: map<string, KeyRow>, links: seq<Link>, row: KeyRow)
    requires DocumentedLinks(audits, keys, links) && row.id !in keys
    ensures DocumentedLinks(audits, keys[row.id := row], links)
  {
  }

  lemma OriginsAreKeys(origins: seq<Origin>, keys: map<string, KeyRow>, links: seq<Link>, chains: seq<seq<string>>)
    requires ChainPartition(origins, keys, links, chains)
    ensures forall i | 0 <= i < |origins| :: origins[i].keyId in keys
  {
    forall i | 0 <= i < |origins|
      ensures origins[i].keyId in keys
    {
      assert At(chains, i, 0, origins[i].keyId);
    }
  }

  lemma NewOriginIsUnique(origins: seq<Origin>, keys: map<string, KeyRow>, origin: Origin)
    requires UniqueIds(origins, OriginId) && origin.keyId !in keys && origin.keyId != ""
    requires forall i | 0 <= i < |origins| :: origins[i].keyId in keys
    ensures UniqueIds(origins + [origin], OriginId)
  {
    assert forall i, j | 0 <= i < j < |origins| :: OriginId(origins[i]) != OriginId(origins[j]);
  }

  /** First-run setup and registration add a chain of one key. */
  lemma InsertionStartsChain(
    origins: seq<Origin>, db: Db, db': Db, key: NewKey, links: seq<Link>, chains: seq<seq<string>>)
    requires Consistent(origins, db, links, chains) && Insertable(db.keys, FirstKey(key))
    requires db'.keys == db.keys + [FirstKey(key)] && db'.audits == db.audits
    ensures Consistent(origins + [OriginOf(key)], db', links, chains + [[key.tx.newId]])
  {
    var keys := MapBy(PlainKeys(db.keys), KeyId);
    InsertedUniqueIds(db.keys, FirstKey(key));
    InsertedKeyMap(db.keys, FirstKey(key));
    StartedPartition(origins, keys, links, chains, PlainKey(FirstKey(key)));
    DocumentsStay(PlainAudits(db.audits), keys, links, PlainKey(FirstKey(key)));
    OriginsAreKeys(origins, keys, links, chains);
    NewOriginIsUnique(origins, keys, OriginOf(key));
    HistoryIsConsistent(origins + [OriginOf(key)], db', links, chains + [[key.tx.newId]]);
  }

  // ---------------------------------------------------------------- every run forms chains

  lemma EmptyIsConsistent()
    ensures Consistent([], EMPTY, [], [])
  {
    HistoryIsConsistent([], EMPTY, [], []);
  }

  lemma StepIsConsistent(
    origins: seq<Origin>, db: Db, event: Event, links: seq<Link>, chains: seq<seq<string>>)
    returns (links': seq<Link>, chains': seq<seq<string>>)
    requires Consistent(origins, db, links, chains) && Commits(db, event)
    ensures Consistent(origins + if event.Rotate? then [] else [OriginOf(event.key)], StepDb(db, event),
              links', chains')
    ensures links' == links + if event.Rotate? then [Link(event.input.apiKeyId, event.tx.newId)] else []
  {
    if event.Rotate? {
      var i := RotationGrowsChain(origins, db, event.input, event.tx, links, chains);
      links', chains' := links + [Link(event.input.apiKeyId, event.tx.newId)], Grown(chains, i, event.tx.newId);
      assert origins + [] == origins;
    } else {
      InsertionStartsChain(origins, db, StepDb(db, event), event.key, links, chains);
      links', chains' := links + [], chains + [[event.key.tx.newId]];
      assert links + [] == links;
    }
  }

  ghost predicate IsReplacement(links: seq<Link>, id: string) {
    exists x | 0 <= x < |links| :: links[x].replacementId == id
  }

  /** The links of a run: one for each committed rotation. */
  function Rotations(events: seq<Event>): seq<Link> {
    if events == [] then [] else
    var front, last := events[..|events| - 1], events[|events| - 1];
    Rotations(front) +
    if last.Rotate? && Commits(Run(front), last) then [Link(last.input.apiKeyId, last.tx.newId)] else []
  }

  /** Whatever commits, aborts or loses its acknowledgement, the rows form chains from the created origins, and
      their links are the committed rotations. */
  lemma {:induction false} RunIsConsistent(events: seq<Event>) returns (chains: seq<seq<string>>)
    ensures Consistent(Created(events), Run(events), Rotations(events), chains)
  {
    if events == [] {
      chains := [];
      EmptyIsConsistent();
    } else {
      var front, last := events[..|events| - 1], events[|events| - 1];
      chains := RunIsConsistent(front);
      if Commits(Run(front), last) {
        var links;
        links, chains := StepIsConsistent(Created(front), Run(front), last, Rotations(front), chains);
      } else {
        assert Created(front) + [] == Created(front) && Rotations(front) + [] == Rotations(front);
      }
    }
  }

  /** With its created origins a reachable history is accepted exactly when its texts are canonical. */
  lemma AcceptedIffCanonicalText(events: seq<Event>)
    ensures Accepts(StateOf(Created(events), Run(events))) <==> CanonicalText(Run(events))
  {
    var db := Run(events);
    var chains := RunIsConsistent(events);
    if CanonicalText(db) {
      PlainHistory(Created(events), db, Rotations(events), chains);
    }
    if links', chains' :| CanonicalHistory(StateOf(Created(events), db), links', chains') {
      PlainHistory(Created(events), db, links', chains');
    }
  }

  // ---------------------------------------------------------------- what the callers pass in

  /** What the caller of a rotation can check before it: the note must not be the one that marks the first key. */
  predicate CanonicalInput(input: RotateInput) {
    Text.Trim(input.requestId) == input.requestId && IsSha256Hex(input.keyHash) && input.note != Some(MARKER_NOTE)
  }

  predicate CanonicalEvent(event: Event) {
    match event
    case FirstRun(key, _) => IsSha256Hex(key.keyHash)
    case Register(key, _) => IsSha256Hex(key.keyHash)
    case Rotate(input, _, _) => CanonicalInput(input)
  }

  /** Every event that commits was given canonical input. */
  predicate CommitsCanonical(events: seq<Event>) {
    events == [] ||
    var front, last := events[..|events| - 1], events[|events| - 1];
    CommitsCanonical(front) && (Commits(Run(front), last) ==> CanonicalEvent(last))
  }

  predicate CommitsCanonicalText(events: seq<Event>) {
    events == [] ||
    var front, last := events[..|events| - 1], events[|events| - 1];
    CommitsCanonicalText(front) && (Commits(Run(front), last) ==> CanonicalEvent(Unmarked(last)))
  }

  /** The event without its note. */
  function Unmarked(event: Event): Event {
    if event.Rotate? then event.(input := event.input.(note := None)) else event
  }

  /** No rotation that commits was given the marker note. */
  predicate NoMarkerRotated(events: seq<Event>) {
    events == [] ||
    var front, last := events[..|events| - 1], events[|events| - 1];
    NoMarkerRotated(front) && (Commits(Run(front), last) && last.Rotate? ==> last.input.note != Some(MARKER_NOTE))
  }

  /** First-run setup committed. */
  predicate FirstRunDone(events: seq<Event>) {
    events != [] &&
    var front, last := events[..|events| - 1], events[|events| - 1];
    FirstRunDone(front) || (last.FirstRun? && Commits(Run(front), last))
  }

  lemma {:induction false} CanonicalMeansBoth(events: seq<Event>)
    ensures CommitsCanonical(events) <==> CommitsCanonicalText(events) && NoMarkerRotated(events)
  {
    if events != [] {
      CanonicalMeansBoth(events[..|events| - 1]);
    }
  }

  lemma InsertionText(db: Db, db': Db, row: KeyRow)
    requires db'.keys == db.keys + [row] && db'.audits == db.audits && row.keyHash.Some?
    ensures CanonicalText(db') <==> CanonicalText(db) && IsSha256Hex(row.keyHash.value)
  {
    assert db'.keys[|db.keys|] == row;
    assert forall k | 0 <= k < |db.keys| :: db'.keys[k] == db.keys[k];
    assert (forall key | key in db.keys :: CanonicalHash(key)) <==>
           (forall k | 0 <= k < |db.keys| :: CanonicalHash(db.keys[k]));
    assert (forall key | key in db'.keys :: CanonicalHash(key)) <==>
           (forall k | 0 <= k < |db'.keys| :: CanonicalHash(db'.keys[k]));
  }

  lemma RotationText(db: Db, input: RotateInput, tx: TxContext)
    requires Rotated(db, input, tx).Some?
    ensures CanonicalText(Rotated(db, input, tx).value) <==> CanonicalText(db) && CanonicalInput(input.(note := None))
  {
    var n := FindLive(db.keys, input.tenantId, input.apiKeyId).value;
    var revoked, row := db.keys[n].(revokedAt := Some(tx.timestamp)), Replacement(input, tx);
    var audit := RotationAudit(input, db.keys[n], tx.timestamp, row);
    var db' := Rotated(db, input, tx).value;
    assert db'.keys[|db.keys|] == row && db'.audits[|db.audits|] == audit;
    assert CanonicalInput(input.(note := None)) <==> CanonicalRequestId(audit) && CanonicalHash(row);
    assert forall k | 0 <= k < |db.keys| :: CanonicalHash(db'.keys[k]) <==> CanonicalHash(db.keys[k]);
    assert forall x | 0 <= x < |db.audits| :: db'.audits[x] == db.audits[x];
    assert CanonicalText(db) <==>
      (forall k | 0 <= k < |db.keys| :: CanonicalHash(db.keys[k])) &&
      (forall x | 0 <= x < |db.audits| :: CanonicalRequestId(db.audits[x]));
    assert CanonicalText(db') <==>
      (forall k | 0 <= k < |db'.keys| :: CanonicalHash(db'.keys[k])) &&
      (forall x | 0 <= x < |db'.audits| :: CanonicalRequestId(db'.audits[x]));
  }

  lemma {:induction false} RunText(events: seq<Event>)
    ensures CanonicalText(Run(events)) <==> CommitsCanonicalText(events)
  {
    if events != [] {
      var front, last := events[..|events| - 1], events[|events| - 1];
      RunText(front);
      if Commits(Run(front), last) {
        if last.Rotate? {
          RotationText(Run(front), last.input, last.tx);
        } else {
          InsertionText(Run(front), Run(events), FirstKey(last.key));
        }
      }
    }
  }

  // ---------------------------------------------------------------- what the reader sees

  lemma {:induction false} RunIsAligned(events: seq<Event>)
    ensures Aligned(Run(events))
  {
    if events != [] {
      RunIsAligned(events[..|events| - 1]);
    }
  }

  lemma MarkersSnoc(keys: seq<KeyRow>, notes: seq<Option<string>>, row: KeyRow, note: Option<string>)
    requires |keys| == |notes|
    ensures MarkerOrigins(keys + [row], notes + [note]) ==
            MarkerOrigins(keys, notes) + if note == Some(MARKER_NOTE) then [Origin(row.id, row.tenantId)] else []
  {
    assert (keys + [row])[..|keys|] == keys && (notes + [note])[..|notes|] == notes;
  }

  lemma {:induction false} MarkersOfRevoked(keys: seq<KeyRow>, notes: seq<Option<string>>, n: nat, revoked: KeyRow)
    requires |keys| == |notes| && n < |keys| && revoked.id == keys[n].id && revoked.tenantId == keys[n].tenantId
    ensures MarkerOrigins(keys[n := revoked], notes) == MarkerOrigins(keys, notes)
  {
    var last := |keys| - 1;
    if n < last {
      MarkersOfRevoked(keys[..last], notes[..last], n, revoked);
      assert keys[n := revoked][..last] == keys[..last][n := revoked];
    } else {
      assert keys[n := revoked][..last] == keys[..last];
    }
  }

  /** The marker that an event adds. */
  function NewMarker(event: Event): seq<Origin> {
    match event
    case FirstRun(key, _) => [OriginOf(key)]
    case Register(_, _) => []
    case Rotate(input, tx, _) => if input.note == Some(MARKER_NOTE) then [Origin(tx.newId, input.tenantId)] else []
  }

  lemma StepMarkers(db: Db, event: Event)
    requires Aligned(db) && Commits(db, event)
    ensures Aligned(StepDb(db, event))
    ensures MarkerOrigins(StepDb(db, event).keys, StepDb(db, event).notes) ==
            MarkerOrigins(db.keys, db.notes) + NewMarker(event)
  {
    if event.Rotate? {
      var n := FindLive(db.keys, event.input.tenantId, event.input.apiKeyId).value;
      var revoked := db.keys[n].(revokedAt := Some(event.tx.timestamp));
      MarkersOfRevoked(db.keys, db.notes, n, revoked);
      MarkersSnoc(db.keys[n := revoked], db.notes, Replacement(event.input, event.tx), event.input.note);
    } else {
      var note := if event.FirstRun? then MARKER_NOTE else INITIAL_KEY_NOTE;
      MarkersSnoc(db.keys, db.notes, FirstKey(event.key), Some(note));
    }
  }

  function MarkersOf(events: seq<Event>): seq<Origin> {
    RunIsAligned(events);
    MarkerOrigins(Run(events).keys, Run(events).notes)
  }

  /** Only an empty history is fresh. */
  lemma {:induction false} FreshIsEmpty(events: seq<Event>)
    requires Run(events).keys == []
    ensures Created(events) == [] && MarkersOf(events) == [] && Run(events).registrations == [] && !FirstRunDone(events)
    ensures NoMarkerRotated(events)
  {
    if events != [] {
      FreshIsEmpty(events[..|events| - 1]);
    }
  }

  /** While no rotation was given the marker note, the reader sees the created origins. */
  ghost predicate ReadsCreated(events: seq<Event>) {
    && MarkersOf(events) + Run(events).registrations == Created(events)
    && |MarkersOf(events)| == if FirstRunDone(events) then 1 else 0
  }

  /** What a last event that commits adds to each list. */
  lemma CommittedStep(events: seq<Event>)
    requires events != [] && Commits(Run(events[..|events| - 1]), events[|events| - 1])
    ensures var front, last := events[..|events| - 1], events[|events| - 1];
            && MarkersOf(events) == MarkersOf(front) + NewMarker(last)
            && Run(events).registrations == Run(front).registrations + NewRegistration(last)
            && Created(events) == Created(front) + (if last.Rotate? then [] else [OriginOf(last.key)])
            && (FirstRunDone(events) <==> FirstRunDone(front) || last.FirstRun?)
  {
    RunIsAligned(events[..|events| - 1]);
    StepMarkers(Run(events[..|events| - 1]), events[|events| - 1]);
  }

  lemma IdleStep(events: seq<Event>)
    requires events != [] && !Commits(Run(events[..|events| - 1]), events[|events| - 1])
    ensures var front := events[..|events| - 1];
            && MarkersOf(events) == MarkersOf(front) && Run(events).registrations == Run(front).registrations
            && Created(events) == Created(front) && (FirstRunDone(events) <==> FirstRunDone(front))
  {
  }

  lemma ExtendBoth<T>(markers: seq<T>, registered: seq<T>, marker: seq<T>, registration: seq<T>)
    requires marker == [] || registered == []
    ensures (markers + marker) + (registered + registration) == (markers + registered) + (marker + registration)
  {
  }

  function NewRegistration(event: Event): seq<Origin> {
    if event.Register? then [OriginOf(event.key)] else []
  }

  lemma AddsOneOrigin(event: Event)
    requires event.Rotate? ==> event.input.note != Some(MARKER_NOTE)
    ensures NewMarker(event) + NewRegistration(event) == if event.Rotate? then [] else [OriginOf(event.key)]
  {
  }

  lemma ReadStep(events: seq<Event>)
    requires events != [] && NoMarkerRotated(events) && ReadsCreated(events[..|events| - 1])
    ensures ReadsCreated(events)
  {
    var front, last := events[..|events| - 1], events[|events| - 1];
    if Commits(Run(front), last) {
      CommittedStep(events);
      if last.FirstRun? {
        FreshIsEmpty(front);
      }
      AddsOneOrigin(last);
      ExtendBoth(MarkersOf(front), Run(front).registrations, NewMarker(last), NewRegistration(last));
    } else {
      IdleStep(events);
    }
  }

  lemma {:induction false} CreatedAreRead(events: seq<Event>)
    requires NoMarkerRotated(events)
    ensures ReadsCreated(events)
  {
    if events != [] {
      CreatedAreRead(events[..|events| - 1]);
      ReadStep(events);
    }
  }

  /** Once a rotation was, there is a marker too many. */
  lemma {:induction false} MarkerTooMany(events: seq<Event>)
    requires !NoMarkerRotated(events)
    ensures |MarkersOf(events)| >= if FirstRunDone(events) then 2 else 1
  {
    var front, last := events[..|events| - 1], events[|events| - 1];
    RunIsAligned(front);
    if NoMarkerRotated(front) {
      CreatedAreRead(front);
    } else {
      MarkerTooMany(front);
    }
    if Commits(Run(front), last) {
      CommittedStep(events);
      if last.FirstRun? {
        FreshIsEmpty(front);
      }
    } else {
      IdleStep(events);
    }
  }

  /** Before first-run setup, whatever bears the marker note is a rotation's replacement. */
  lemma {:induction false} EarlyMarkersAreReplacements(events: seq<Event>)
    requires !FirstRunDone(events)
    ensures forall k | 0 <= k < |MarkersOf(events)| :: IsReplacement(Rotations(events), MarkersOf(events)[k].keyId)
  {
    if events != [] {
      var front, last := events[..|events| - 1], events[|events| - 1];
      EarlyMarkersAreReplacements(front);
      RunIsAligned(front);
      if Commits(Run(front), last) {
        StepMarkers(Run(front), last);
      }
      forall k | 0 <= k < |MarkersOf(events)|
        ensures IsReplacement(Rotations(events), MarkersOf(events)[k].keyId)
      {
        if k < |MarkersOf(front)| {
          assert IsReplacement(Rotations(front), MarkersOf(front)[k].keyId);
          var x :| 0 <= x < |Rotations(front)| && Rotations(front)[x].replacementId == MarkersOf(front)[k].keyId;
          assert Rotations(events)[x] == Rotations(front)[x];
        } else {
          assert Rotations(events)[|Rotations(front)|].replacementId == MarkersOf(events)[k].keyId;
        }
      }
    }
  }

  /** The links of a history are those its audit rows document, whatever origins it is read with. */
  lemma LinksAreRotations(events: seq<Event>, origins: seq<Origin>, links: seq<Link>, chains: seq<seq<string>>)
    requires CanonicalHistory(StateOf(origins, Run(events)), links, chains)
    ensures links == Rotations(events)
  {
    var db := Run(events);
    var chains' := RunIsConsistent(events);
    PlainHistory(origins, db, links, chains);
    PlainKeyMap(db.keys);
    KeyMapIsKeyed(PlainKeys(db.keys));
    DocumentedLinksRead(PlainAudits(db.audits), MapBy(PlainKeys(db.keys), KeyId), links);
    DocumentedLinksRead(PlainAudits(db.audits), MapBy(PlainKeys(db.keys), KeyId), Rotations(events));
  }

  /** No origin of a canonical history is a replacement. */
  lemma OriginIsNoReplacement(state: State, links: seq<Link>, chains: seq<seq<string>>, i: nat)
    requires CanonicalHistory(state, links, chains) && i < |state.origins|
    ensures !IsReplacement(links, state.origins[i].keyId)
  {
    assert At(chains, i, 0, state.origins[i].keyId);
    forall x | 0 <= x < |links|
      ensures links[x].replacementId != state.origins[i].keyId
    {
      assert IsStep(chains, links[x]);
      var i', j :| Step(chains, i', j, links[x]);
      assert At(chains, i', j + 1, links[x].replacementId);
    }
  }

  lemma EarlyMarkerIsRejected(events: seq<Event>)
    requires !FirstRunDone(events) && |MarkersOf(events)| == 1
    ensures Aligned(Run(events)) && !HistoryReads(Run(events))
  {
    RunIsAligned(events);
    EarlyMarkersAreReplacements(events);
    var state := StateOf(ReadOrigins(Run(events)), Run(events));
    assert state.origins[0] == MarkersOf(events)[0];
    forall links, chains
      ensures !CanonicalHistory(state, links, chains)
    {
      if CanonicalHistory(state, links, chains) {
        LinksAreRotations(events, state.origins, links, chains);
        OriginIsNoReplacement(state, links, chains, 0);
      }
    }
  }

  // ---------------------------------------------------------------- the theorem

  /**
   * Whatever commits, aborts or loses its acknowledgement, setup can read the history back exactly
   * when first-run setup came first and every committed transaction was given canonical input.
   */
  lemma ReachableIsAccepted(events: seq<Event>)
    ensures Aligned(Run(events))
    ensures HistoryReads(Run(events)) <==> FirstRunDone(events) && CommitsCanonical(events)
  {
    RunIsAligned(events);
    CanonicalMeansBoth(events);
    if NoMarkerRotated(events) { CreatedAreRead(events); } else { MarkerTooMany(events); }
    RunText(events);
    AcceptedIffCanonicalText(events);
    if |MarkersOf(events)| == 1 && !FirstRunDone(events) {
      EarlyMarkerIsRejected(events);
    }
  }

  /** Callers that pass only canonical input need not know what commits. */
  lemma {:induction false} CanonicalInputsSuffice(events: seq<Event>)
    requires forall x | 0 <= x < |events| :: CanonicalEvent(events[x])
    ensures CommitsCanonical(events)
  {
    if events != [] {
      CanonicalInputsSuffice(events[..|events| - 1]);
    }
  }

  /** A history that was committed with other input is never readable again. */
  lemma {:induction false} RejectedForGood(events: seq<Event>, more: seq<Event>)
    requires !CommitsCanonical(events)
    ensures Aligned(Run(events + more)) && !HistoryReads(Run(events + more))
  {
    if more == [] {
      assert events + more == events;
    } else {
      assert (events + more)[..|events + more| - 1] == events + more[..|more| - 1];
      RejectedForGood(events, more[..|more| - 1]);
      StaysUncanonical(events, more);
    }
    ReachableIsAccepted(events + more);
  }

  lemma {:induction false} StaysUncanonical(events: seq<Event>, more: seq<Event>)
    requires !CommitsCanonical(events)
    ensures !CommitsCanonical(events + more)
  {
    if more == [] {
      assert events + more == events;
    } else {
      assert (events + more)[..|events + more| - 1] == events + more[..|more| - 1];
      StaysUncanonical(events, more[..|more| - 1]);
    }
  }

  ghost predicate NamesLiveKey(keys: seq<KeyRow>, id: string, tenantId: string) {
    exists k | 0 <= k < |keys| :: keys[k].id == id && keys[k].tenantId == tenantId && keys[k].revokedAt.None?
  }

  lemma ChainEndsLive(state: State, links: seq<Link>, chains: seq<seq<string>>, i: nat)
    requires CanonicalHistory(state, links, chains) && i < |chains|
    ensures NamesLiveKey(state.keys, Last(chains[i]), state.origins[i].tenantId)
  {
    KeyMapIsKeyed(state.keys);
    assert At(chains, i, |chains[i]| - 1, Last(chains[i]));
    var row := MapBy(state.keys, KeyId)[Last(chains[i])];
    var k :| 0 <= k < |state.keys| && state.keys[k] == row;
  }

  /** Reading any reachable history: the exact condition, and then the marker is among the origins and the map sends
      each origin to its live key and names no other key. */
  method ReadReachable(events: seq<Event>) returns (r: Reading)
    ensures r.Reading? <==> FirstRunDone(events) && CommitsCanonical(events)
    ensures r.Reading? ==>
      && r.markerKeyId in r.byOrigin
      && r.byOrigin.Keys == (set i | 0 <= i < |Created(events)| :: Created(events)[i].keyId)
      && (forall i | 0 <= i < |Created(events)| && Created(events)[i].keyId in r.byOrigin ::
            NamesLiveKey(Run(events).keys, r.byOrigin[Created(events)[i].keyId], Created(events)[i].tenantId))
      && (forall row | row in Run(events).keys :: row.revokedAt.None? <==> row.id in r.byOrigin.Values)
  {
    var db := Run(events);
    ReachableIsAccepted(events);
    r := ReadHistory(db);
    if r.Reading? {
      CanonicalMeansBoth(events);
      CreatedAreRead(events);
      assert ReadOrigins(db) == Created(events);
      ghost var state := StateOf(ReadOrigins(db), db);
      ghost var links, chains :| CanonicalHistory(state, links, chains);
      CurrentKeysAreTheLiveKeys(state, links, chains);
      CurrentKeysDomain(state.origins, chains);
      forall i | 0 <= i < |state.origins|
        ensures NamesLiveKey(db.keys, r.byOrigin[state.origins[i].keyId], state.origins[i].tenantId)
      {
        ChainEndsLive(state, links, chains, i);
      }
    }
  }

  lemma {:induction false} CurrentKeysDomain(origins: seq<Origin>, chains: seq<seq<string>>)
    requires |origins| == |chains|
    ensures CurrentKeys(origins, chains).Keys == set i | 0 <= i < |origins| :: origins[i].keyId
  {
    if origins != [] {
      CurrentKeysDomain(origins[..|origins| - 1], chains[..|origins| - 1]);
    }
  }

  /** In an accepted history the map names the live keys, one per origin, and no others. */
  lemma CurrentKeysAreTheLiveKeys(state: State, links: seq<Link>, chains: seq<seq<string>>)
    requires CanonicalHistory(state, links, chains)
    ensures forall i | 0 <= i < |chains| ::
              && state.origins[i].keyId in CurrentKeys(state.origins, chains)
              && CurrentKeys(state.origins, chains)[state.origins[i].keyId] == Last(chains[i])
    ensures forall row | row in state.keys ::
              row.revokedAt.None? <==> row.id in CurrentKeys(state.origins, chains).Values
  {
    forall i | 0 <= i < |chains|
      ensures state.origins[i].keyId in CurrentKeys(state.origins, chains)
      ensures CurrentKeys(state.origins, chains)[state.origins[i].keyId] == Last(chains[i])
    {
      CurrentKeysAt(state.origins, chains, i);
    }
    forall row | row in state.keys
      ensures row.revokedAt.None? <==> row.id in CurrentKeys(state.origins, chains).Values
    {
      LiveIffCurrent(state, links, chains, row);
    }
  }

  lemma LiveIffCurrent(state: State, links: seq<Link>, chains: seq<seq<string>>, row: KeyRow)
    requires CanonicalHistory(state, links, chains) && row in state.keys
    ensures row.revokedAt.None? <==> row.id in CurrentKeys(state.origins, chains).Values
  {
    var current := CurrentKeys(state.origins, chains);
    KeyMapIsKeyed(state.keys);
    var i, j :| At(chains, i, j, row.id);
    CurrentKeysAt(state.origins, chains, i);
    if row.id in current.Values {
      var origin :| origin in current && current[origin] == row.id;
      var k := CurrentKeysOrigin(state.origins, chains, origin);
      CurrentKeysAt(state.origins, chains, k);
      assert At(chains, k, |chains[k]| - 1, row.id);
    }
  }

  lemma {:induction false} CurrentKeysAt(origins: seq<Origin>, chains: seq<seq<string>>, i: nat)
    requires |origins| == |chains| && UniqueIds(origins, OriginId) && i < |chains|
    ensures origins[i].keyId in CurrentKeys(origins, chains)
    ensures CurrentKeys(origins, chains)[origins[i].keyId] == Last(chains[i])
  {
    var n := |origins| - 1;
    if i < n {
      CurrentKeysAt(origins[..n], chains[..n], i);
      assert OriginId(origins[i]) != OriginId(origins[n]);
    }
  }

  lemma {:induction false} CurrentKeysOrigin(origins: seq<Origin>, chains: seq<seq<string>>, id: string)
    returns (i: nat)
    requires |origins| == |chains| && id in CurrentKeys(origins, chains)
    ensures i < |origins| && origins[i].keyId == id
  {
    i := |origins| - 1;
    if origins[i].keyId != id {
      i := CurrentKeysOrigin(origins[..i], chains[..i], id);
    }
  }

  // ---------------------------------------------------------------- inputs that are recorded and rejected

  function Setup(hash: string): Event {
    FirstRun(NewKey("t", hash, TxContext("c", "k")), NoFault)
  }

  function AfterSetup(hash: string): Db {
    Db([KeyRow("k", "t", Some(hash), "c", None)], [Some(MARKER_NOTE)], [], [])
  }

  function RotationOf(requestId: string, note: Option<string>, hash: string): Event {
    Rotate(RotateInput("t", "u", requestId, "k", note, hash), TxContext("now", "n"), NoFault)
  }

  lemma RunNext(events: seq<Event>, event: Event)
    ensures Run(events + [event]) == StepDb(Run(events), event)
    ensures CommitsCanonical(events + [event]) <==>
            CommitsCanonical(events) && (Commits(Run(events), event) ==> CanonicalEvent(event))
  {
    assert (events + [event])[..|events|] == events;
  }

  lemma SetupRuns(hash: string)
    ensures Run([Setup(hash)]) == AfterSetup(hash)
  {
    RunNext([], Setup(hash));
    assert [] + [Setup(hash)] == [Setup(hash)];
  }

  lemma RotationCommits(hash: string, requestId: string, note: Option<string>, other: string)
    requires requestId != "" && Text.IsBtrimmed(requestId) && NoteAllowed(note) && other != hash
    ensures Commits(AfterSetup(hash), RotationOf(requestId, note, other))
  {
    assert FindLive(AfterSetup(hash).keys, "t", "k") == Some(0);
  }

  /** One committed rotation after setup with input that is not canonical, and whatever follows. */
  lemma RotationRejected(hash: string, event: Event, more: seq<Event>)
    requires event.Rotate? && Commits(AfterSetup(hash), event) && !CanonicalInput(event.input)
    ensures Aligned(Run([Setup(hash), event] + more)) && !HistoryReads(Run([Setup(hash), event] + more))
  {
    SetupRuns(hash);
    RunNext([Setup(hash)], event);
    assert [Setup(hash)] + [event] == [Setup(hash), event];
    RejectedForGood([Setup(hash), event], more);
  }

  /** A rotation given a request id that begins with a tab commits, since btrim keeps tabs; the validator rejects the
      history from then on. */
  lemma TabbedRequestIdIsRecordedButRejected(hash: string, other: string, more: seq<Event>)
    requires other != hash
    ensures var event := RotationOf("\tq", None, other); var run := Run([Setup(hash), event] + more);
            Commits(Run([Setup(hash)]), event) && Aligned(run) && !HistoryReads(run)
  {
    SetupRuns(hash);
    RotationCommits(hash, "\tq", None, other);
    assert Text.TrimStart("\tq") == Text.TrimStart("q") == "q";
    assert Text.TrimEnd("q") == "q";
    RotationRejected(hash, RotationOf("\tq", None, other), more);
  }

  /** So does one given the marker's note, whatever its request id and digest: from then on two keys bear the marker
      and the reader refuses. */
  lemma MarkerNoteIsRecordedButRejected(hash: string, requestId: string, other: string, more: seq<Event>)
    requires requestId != "" && Text.Trim(requestId) == requestId && Text.IsBtrimmed(requestId) && other != hash
    ensures var event := RotationOf(requestId, Some(MARKER_NOTE), other); var run := Run([Setup(hash), event] + more);
            Commits(Run([Setup(hash)]), event) && Aligned(run) && !HistoryReads(run)
  {
    SetupRuns(hash);
    RotationCommits(hash, requestId, Some(MARKER_NOTE), other);
    RotationRejected(hash, RotationOf(requestId, Some(MARKER_NOTE), other), more);
  }

  /** And a database in which a registration came before first-run setup stays unreadable. */
  lemma RegistrationBeforeSetupIsRejected(key: NewKey, more: seq<Event>)
    requires key.tx.newId != ""
    ensures var run := Run([Register(key, NoFault)] + more);
            Aligned(run) && !HistoryReads(run)
  {
    RunNext([], Register(key, NoFault));
    assert [] + [Register(key, NoFault)] == [Register(key, NoFault)];
    NeverFreshAgain([Register(key, NoFault)], more);
    ReachableIsAccepted([Register(key, NoFault)] + more);
  }

  lemma {:induction false} NeverFreshAgain(events: seq<Event>, more: seq<Event>)
    requires Run(events).keys != [] && !FirstRunDone(events)
    ensures Run(events + more).keys != [] && !FirstRunDone(events + more)
  {
    if more == [] {
      assert events + more == events;
    } else {
      assert (events + more)[..|events + more| - 1] == events + more[..|more| - 1];
      NeverFreshAgain(events, more[..|more| - 1]);
    }
  }
}
