/**
 * The validator of API-key rotation history (core/tenant/initialization-rotation-chain.ts).
 *
 * Keys, origins and audit rows are accepted exactly when the keys fall into disjoint
 * chains, one per origin, whose consecutive pairs are what the audit rows document.
 */
module RotationChain {
  import opened Common
  import Text

  /** A JSON value as stored in old_values and new_values; numbers, booleans and arrays are JOther. */
  datatype Json = JNull | JString(text: string) | JObject(fields: map<string, Json>) | JOther

  datatype Origin = Origin(keyId: string, tenantId: string)

  datatype KeyRow = KeyRow(
    id: string,
    tenantId: string,
    keyHash: Option<string>,
    createdAt: string,
    revokedAt: Option<string>)

  datatype AuditRow = AuditRow(
    tenantId: string,
    actorUserId: Option<string>,
    actorTenantId: Option<string>,
    actorType: string,
    action: string,
    entityType: string,
    entityId: Option<string>,
    requestId: Option<string>,
    createdAt: string,
    oldValues: Json,
    newValues: Json)

  datatype State = State(origins: seq<Origin>, keys: seq<KeyRow>, audits: seq<AuditRow>)

  datatype Link = Link(oldId: string, replacementId: string)

  /** The validator's outcome: the current key of each origin, or the thrown error. */
  datatype Outcome = Current(byOrigin: map<string, string>) | Ambiguous

  // ---------------------------------------------------------------- one audit row

  function OldValues(createdAt: string): Json {
    JObject(map["created_at" := JString(createdAt), "revoked_at" := JNull])
  }

  function NewValues(revokedAt: string, replacementId: string, replacementCreatedAt: string): Json {
    JObject(map[
      "result" := JString("succeeded"),
      "revoked_at" := JString(revokedAt),
      "replacement" := JObject(map[
        "id" := JString(replacementId),
        "created_at" := JString(replacementCreatedAt),
        "revoked_at" := JNull])])
  }

  predicate CanonicalHeader(audit: AuditRow) {
    && audit.actorType == "user"
    && audit.actorUserId.Some? && audit.actorUserId.value != ""
    && (audit.actorTenantId.Some? ==> audit.actorTenantId.value == audit.tenantId)
    && audit.action == "api_key.rotated"
    && audit.entityType == "api_key"
    && audit.entityId.Some? && audit.entityId.value != ""
    && audit.requestId.Some? && audit.requestId.value != ""
    && Text.Trim(audit.requestId.value) == audit.requestId.value
  }

  function ExactObject(value: Json, expectedKeys: set<string>): Option<map<string, Json>> {
    if value.JObject? && value.fields.Keys == expectedKeys then Some(value.fields) else None
  }

  function StringValue(value: Json): Option<string> {
    if value.JString? && value.text != "" then Some(value.text) else None
  }

  /** The link an audit row describes, found the way the source reads the row. */
  function CanonicalLink(audit: AuditRow, keys: map<string, KeyRow>): Option<Link> {
    if !CanonicalHeader(audit) then None else
    var oldValues := ExactObject(audit.oldValues, {"created_at", "revoked_at"});
    var newValues := ExactObject(audit.newValues, {"result", "revoked_at", "replacement"});
    if oldValues.None? || newValues.None? then None else
    var replacement := ExactObject(newValues.value["replacement"], {"id", "created_at", "revoked_at"});
    if replacement.None? then None else
    var replacementId := StringValue(replacement.value["id"]);
    var revokedAt := StringValue(newValues.value["revoked_at"]);
    if replacementId.None? || revokedAt.None? then None else
    if audit.entityId.value !in keys || replacementId.value !in keys then None else
    var oldKey := keys[audit.entityId.value];
    var replacementKey := keys[replacementId.value];
    if
      || oldKey.tenantId != audit.tenantId
      || replacementKey.tenantId != audit.tenantId
      || oldKey.id == replacementKey.id
      || oldValues.value["created_at"] != JString(oldKey.createdAt)
      || oldValues.value["revoked_at"] != JNull
      || newValues.value["result"] != JString("succeeded")
      || oldKey.revokedAt != Some(revokedAt.value)
      || audit.createdAt != revokedAt.value
      || replacement.value["created_at"] != JString(replacementKey.createdAt)
      || replacement.value["revoked_at"] != JNull
    then None
    else Some(Link(oldKey.id, replacementId.value))
  }

  /** What a rotation audit row says when it is the record of old being replaced by new. */
  ghost predicate Documents(audit: AuditRow, oldKey: KeyRow, newKey: KeyRow) {
    && CanonicalHeader(audit)
    && audit.entityId == Some(oldKey.id)
    && oldKey.id != newKey.id
    && oldKey.tenantId == audit.tenantId == newKey.tenantId
    && oldKey.revokedAt == Some(audit.createdAt) && audit.createdAt != ""
    && audit.oldValues == OldValues(oldKey.createdAt)
    && audit.newValues == NewValues(audit.createdAt, newKey.id, newKey.createdAt)
  }

  ghost predicate KeyedById(keys: map<string, KeyRow>) {
    forall id | id in keys :: keys[id].id == id && id != ""
  }

  /** Reading a row field by field recovers exactly the pairs the row documents. */
  lemma CanonicalLinkReads(audit: AuditRow, keys: map<string, KeyRow>, link: Link)
    requires KeyedById(keys)
    ensures CanonicalLink(audit, keys) == Some(link) <==>
            && link.oldId in keys && link.replacementId in keys
            && Documents(audit, keys[link.oldId], keys[link.replacementId])
  {
    if CanonicalLink(audit, keys) == Some(link) {
      var newFields := audit.newValues.fields;
      var replacement := newFields["replacement"];
      assert audit.oldValues.fields == OldValues(keys[link.oldId].createdAt).fields;
      assert replacement.fields ==
             NewValues(audit.createdAt, link.replacementId,
               keys[link.replacementId].createdAt).fields["replacement"].fields;
      assert newFields ==
             NewValues(audit.createdAt, link.replacementId, keys[link.replacementId].createdAt).fields;
    }
  }

  function AllLinks(audits: seq<AuditRow>, keys: map<string, KeyRow>): Option<seq<Link>> {
    if audits == [] then Some([]) else
    var link := CanonicalLink(audits[0], keys);
    var rest := AllLinks(audits[1..], keys);
    if link.None? || rest.None? then None else Some([link.value] + rest.value)
  }

  lemma {:induction false} AllLinksReads(audits: seq<AuditRow>, keys: map<string, KeyRow>, links: seq<Link>)
    ensures AllLinks(audits, keys) == Some(links) <==>
            && |links| == |audits|
            && forall x | 0 <= x < |audits| :: CanonicalLink(audits[x], keys) == Some(links[x])
  {
    if audits != [] && links != [] {
      AllLinksReads(audits[1..], keys, links[1..]);
      assert links == [links[0]] + links[1..];
      if |links| == |audits| && forall x | 0 <= x < |audits| :: CanonicalLink(audits[x], keys) == Some(links[x]) {
        forall x | 0 <= x < |audits| - 1
          ensures CanonicalLink(audits[1..][x], keys) == Some(links[1..][x])
        {
          assert CanonicalLink(audits[x + 1], keys) == Some(links[x + 1]);
        }
      }
      if AllLinks(audits, keys) == Some(links) {
        forall x | 0 <= x < |audits|
          ensures CanonicalLink(audits[x], keys) == Some(links[x])
        {
          if x > 0 {
            assert CanonicalLink(audits[1..][x - 1], keys) == Some(links[1..][x - 1]);
          }
        }
      }
    }
  }

  // ---------------------------------------------------------------- unique maps

  ghost predicate UniqueIds<T(!new)>(values: seq<T>, key: T -> string) {
    && (forall i | 0 <= i < |values| :: key(values[i]) != "")
    && (forall i, j | 0 <= i < j < |values| :: key(values[i]) != key(values[j]))
  }

  ghost function MapBy<T(!new)>(values: seq<T>, key: T -> string): map<string, T> {
    if values == [] then map[]
    else
      var last := |values| - 1;
      MapBy(values[..last], key)[key(values[last]) := values[last]]
  }

  lemma {:induction false} MapByLookup<T(!new)>(values: seq<T>, key: T -> string)
    requires UniqueIds(values, key)
    ensures forall i | 0 <= i < |values| ::
            key(values[i]) in MapBy(values, key) && MapBy(values, key)[key(values[i])] == values[i]
    ensures forall id | id in MapBy(values, key) ::
            MapBy(values, key)[id] in values && key(MapBy(values, key)[id]) == id
  {
    if values != [] {
      MapByLookup(values[..|values| - 1], key);
    }
  }

  lemma UniqueSnoc<T(!new)>(values: seq<T>, i: nat, key: T -> string)
    requires i < |values| && UniqueIds(values[..i], key)
    ensures UniqueIds(values[..i + 1], key) <==> key(values[i]) != "" && key(values[i]) !in MapBy(values[..i], key)
    ensures MapBy(values[..i + 1], key) == MapBy(values[..i], key)[key(values[i]) := values[i]]
  {
    var id := key(values[i]);
    MapByLookup(values[..i], key);
    assert values[..i + 1][..i] == values[..i];
    if id in MapBy(values[..i], key) {
      var j :| 0 <= j < i && values[..i][j] == MapBy(values[..i], key)[id];
      assert key(values[..i + 1][j]) == key(values[..i + 1][i]);
    } else if id != "" {
      forall j | 0 <= j < i
        ensures key(values[j]) != id
      {
        assert key(values[..i][j]) in MapBy(values[..i], key);
      }
    }
  }

  lemma UniquePrefix<T(!new)>(values: seq<T>, i: nat, key: T -> string)
    requires i <= |values| && UniqueIds(values, key)
    ensures UniqueIds(values[..i], key)
  {
  }

  /** uniqueMap and groupUnique: the map of the values, unless an id is empty or repeated. */
  method UniqueMap<T(!new)>(values: seq<T>, key: T -> string) returns (r: Option<map<string, T>>)
    ensures r.Some? <==> UniqueIds(values, key)
    ensures r.Some? ==> r.value == MapBy(values, key)
  {
    var result: map<string, T> := map[];
    for i := 0 to |values|
      invariant UniqueIds(values[..i], key)
      invariant result == MapBy(values[..i], key)
    {
      UniqueSnoc(values, i, key);
      var id := key(values[i]);
      if id == "" || id in result {
        if UniqueIds(values, key) { UniquePrefix(values, i + 1, key); }
        return None;
      }
      result := result[id := values[i]];
    }
    assert values[..|values|] == values;
    return Some(result);
  }

  // ---------------------------------------------------------------- the link graph

  /** The two maps of links, seen as a graph on the keys with in- and out-degree at most one. */
  ghost predicate Graph(keys: map<string, KeyRow>, outgoing: map<string, Link>, incoming: map<string, Link>) {
    && KeyedById(keys)
    && (forall id {:trigger outgoing[id]} | id in outgoing ::
          var link := outgoing[id];
          && link.oldId == id && id in keys
          && link.replacementId in keys && keys[link.replacementId].tenantId == keys[id].tenantId
          && link.replacementId in incoming && incoming[link.replacementId] == link)
  }

  ghost predicate IsPath(outgoing: map<string, Link>, path: seq<string>) {
    forall j | 0 <= j < |path| - 1 :: path[j] in outgoing && outgoing[path[j]].replacementId == path[j + 1]
  }

  ghost predicate FullChain(outgoing: map<string, Link>, start: string, path: seq<string>) {
    && |path| > 0 && path[0] == start
    && IsPath(outgoing, path)
    && path[|path| - 1] !in outgoing
  }

  /** Paths from keys nothing points at can only meet at the same place of the same path. */
  lemma {:induction false} PathsMeet(
    keys: map<string, KeyRow>, outgoing: map<string, Link>, incoming: map<string, Link>,
    p: seq<string>, q: seq<string>, i: nat, j: nat)
    requires Graph(keys, outgoing, incoming)
    requires IsPath(outgoing, p) && IsPath(outgoing, q)
    requires i < |p| && j < |q| && p[i] == q[j]
    requires p[0] !in incoming && q[0] !in incoming
    ensures i == j && p[0] == q[0]
  {
    if i > 0 {
      assert outgoing[p[i - 1]].replacementId == p[i];
    }
    if j > 0 {
      assert outgoing[q[j - 1]].replacementId == q[j];
    }
    if i > 0 && j > 0 {
      PathsMeet(keys, outgoing, incoming, p, q, i - 1, j - 1);
    }
  }

  /** A chain is determined by where it starts. */
  lemma {:induction false} ChainUnique(outgoing: map<string, Link>, start: string, p: seq<string>, q: seq<string>)
    requires FullChain(outgoing, start, p) && FullChain(outgoing, start, q)
    ensures p == q
    decreases |p|
  {
    assert |p| > 1 <==> start in outgoing;
    assert |q| > 1 <==> start in outgoing;
    if start in outgoing {
      TailIsChain(outgoing, p);
      TailIsChain(outgoing, q);
      ChainUnique(outgoing, p[1], p[1..], q[1..]);
      assert p == [p[0]] + p[1..] && q == [q[0]] + q[1..];
    } else {
      assert p == [start] && q == [start];
    }
  }

  lemma TailIsChain(outgoing: map<string, Link>, p: seq<string>)
    requires |p| > 1 && FullChain(outgoing, p[0], p)
    ensures FullChain(outgoing, outgoing[p[0]].replacementId, p[1..])
    ensures p[1] == outgoing[p[0]].replacementId
  {
    forall j | 0 <= j < |p[1..]| - 1
      ensures p[1..][j] in outgoing && outgoing[p[1..][j]].replacementId == p[1..][j + 1]
    {
      assert p[j + 1] in outgoing;
    }
  }

  /** Every key of a chain lies in the tenant the chain starts in. */
  lemma {:induction false} PathTenant(
    keys: map<string, KeyRow>, outgoing: map<string, Link>, incoming: map<string, Link>, p: seq<string>, i: nat)
    requires Graph(keys, outgoing, incoming) && IsPath(outgoing, p)
    requires i < |p| && p[0] in keys
    ensures p[i] in keys && keys[p[i]].tenantId == keys[p[0]].tenantId
  {
    if i > 0 {
      PathTenant(keys, outgoing, incoming, p, i - 1);
      assert outgoing[p[i - 1]].replacementId == p[i];
    }
  }

  // ---------------------------------------------------------------- degrees and walks

  predicate IsSha256Hex(s: string) {
    |s| == 64 && forall c | c in s :: '0' <= c <= '9' || 'a' <= c <= 'f'
  }

  /** validateDegrees: the checks on every origin and every key row. */
  predicate ValidDegrees(
    state: State, keys: map<string, KeyRow>, origins: map<string, Origin>,
    outgoing: map<string, Link>, incoming: map<string, Link>)
  {
    && (forall origin | origin in state.origins ::
          && origin.keyId in keys
          && keys[origin.keyId].tenantId == origin.tenantId
          && origin.keyId !in incoming)
    && (forall key | key in state.keys ::
          && (key.keyHash.Some? ==> IsSha256Hex(key.keyHash.value))
          && (key.revokedAt.None? != (key.id in outgoing))
          && (key.id in origins || key.id in incoming))
  }

  ghost function Last(chain: seq<string>): string {
    if chain == [] then "" else chain[|chain| - 1]
  }

  ghost function Elements(chain: seq<string>): set<string> {
    set j | 0 <= j < |chain| :: chain[j]
  }

  lemma ElementsSnoc(chain: seq<string>, id: string)
    ensures Elements(chain + [id]) == Elements(chain) + {id}
  {
    assert (chain + [id])[|chain|] == id;
    forall j | 0 <= j < |chain|
      ensures chain[j] in Elements(chain + [id])
    {
      assert (chain + [id])[j] == chain[j];
    }
  }

  /** The map from each origin to the last key of its chain. */
  ghost function CurrentKeys(origins: seq<Origin>, chains: seq<seq<string>>): map<string, string>
    requires |origins| == |chains|
  {
    if origins == [] then map[] else
    var n := |origins| - 1;
    CurrentKeys(origins[..n], chains[..n])[origins[n].keyId := Last(chains[n])]
  }

  ghost predicate WalkReady(
    origins: seq<Origin>, keys: map<string, KeyRow>, outgoing: map<string, Link>, incoming: map<string, Link>)
  {
    && Graph(keys, outgoing, incoming)
    && (forall i | 0 <= i < |origins| ::
          && origins[i].keyId in keys && origins[i].keyId !in incoming
          && keys[origins[i].keyId].tenantId == origins[i].tenantId)
    && (forall id | id in keys :: keys[id].revokedAt.None? != (id in outgoing))
  }

  /**
   * The inner loop of walkOrigins. A path from a key nothing points at never returns to
   * itself, so the cycle guard is dead and the loop ends on the unvisited keys.
   */
  method FollowLinks(
    origin: Origin, keys: map<string, KeyRow>, outgoing: map<string, Link>, ghost incoming: map<string, Link>)
    returns (r: Option<string>, ghost path: seq<string>)
    requires Graph(keys, outgoing, incoming)
    requires origin.keyId in keys && origin.keyId !in incoming
    ensures FullChain(outgoing, origin.keyId, path)
    ensures r == Some(Last(path)) && r.value in keys && r.value !in outgoing
  {
    var visited: set<string> := {};
    var current := origin.keyId;
    path := [current];
    while current in outgoing
      invariant |path| > 0 && path[0] == origin.keyId && current == Last(path)
      invariant IsPath(outgoing, path)
      invariant visited == Elements(path[..|path| - 1])
      invariant current in keys && visited <= keys.Keys
      decreases keys.Keys - visited
    {
      if current in visited {
        ghost var k :| 0 <= k < |path| - 1 && path[..|path| - 1][k] == current;
        PathsMeet(keys, outgoing, incoming, path, path, k, |path| - 1);
        assert false;
        return None, path;
      }
      ElementsSnoc(path[..|path| - 1], current);
      assert path == path[..|path| - 1] + [current];
      visited := visited + {current};
      ghost var before := path;
      current := outgoing[current].replacementId;
      path := path + [current];
      assert path[..|path| - 1] == before;
    }
    return Some(current), path;
  }

  lemma CurrentKeysSnoc(origins: seq<Origin>, i: nat, chains: seq<seq<string>>, path: seq<string>)
    requires i < |origins| && |chains| == i
    ensures CurrentKeys(origins[..i + 1], chains + [path])
            == CurrentKeys(origins[..i], chains)[origins[i].keyId := Last(path)]
  {
    assert origins[..i + 1][..i] == origins[..i] && (chains + [path])[..i] == chains;
  }

  /** A full chain ends in a live key of its origin's tenant. */
  lemma ChainEndIsLive(
    origins: seq<Origin>, keys: map<string, KeyRow>, outgoing: map<string, Link>, incoming: map<string, Link>,
    i: nat, path: seq<string>)
    requires WalkReady(origins, keys, outgoing, incoming)
    requires i < |origins| && FullChain(outgoing, origins[i].keyId, path)
    ensures Last(path) in keys && keys[Last(path)].revokedAt.None?
    ensures keys[Last(path)].tenantId == origins[i].tenantId
  {
    PathTenant(keys, outgoing, incoming, path, |path| - 1);
  }

  /** walkOrigins. After the degree checks it always succeeds: each chain ends in a live key. */
  method WalkOrigins(
    origins: seq<Origin>, keys: map<string, KeyRow>, outgoing: map<string, Link>, ghost incoming: map<string, Link>)
    returns (r: Option<map<string, string>>, ghost chains: seq<seq<string>>)
    requires WalkReady(origins, keys, outgoing, incoming)
    ensures |chains| == |origins|
    ensures forall i | 0 <= i < |origins| :: FullChain(outgoing, origins[i].keyId, chains[i])
    ensures r == Some(CurrentKeys(origins, chains))
  {
    var result: map<string, string> := map[];
    chains := [];
    for i := 0 to |origins|
      invariant |chains| == i
      invariant forall k | 0 <= k < i :: FullChain(outgoing, origins[k].keyId, chains[k])
      invariant result == CurrentKeys(origins[..i], chains)
    {
      var current, path := FollowLinks(origins[i], keys, outgoing, incoming);
      ChainEndIsLive(origins, keys, outgoing, incoming, i, path);
      if
        || current.None?
        || current.value !in keys
        || keys[current.value].revokedAt.Some?
        || keys[current.value].tenantId != origins[i].tenantId
      {
        assert false;
        return None, chains;
      }
      result := result[origins[i].keyId := current.value];
      CurrentKeysSnoc(origins, i, chains, path);
      chains := chains + [path];
    }
    assert origins[..|origins|] == origins;
    return Some(result), chains;
  }

  /** walk: adds one whole chain to the visited keys; none of its guards fires. */
  method Walk(originId: string, keys: map<string, KeyRow>, outgoing: map<string, Link>, visited: set<string>,
      ghost path: seq<string>)
    returns (ok: bool, after: set<string>)
    requires FullChain(outgoing, originId, path)
    requires KeyedById(keys) && Elements(path) <= keys.Keys && Elements(path) !! visited
    requires forall i, j | 0 <= i < j < |path| :: path[i] != path[j]
    ensures ok && after == visited + Elements(path)
  {
    var current := Some(originId);
    var chain: set<string> := {};
    after := visited;
    ghost var k := 0;
    assert forall j | 0 <= j < |path| :: path[j] in Elements(path) && path[j] != "";
    while current.Some? && current.value != ""
      invariant 0 <= k <= |path|
      invariant current == if k < |path| then Some(path[k]) else None
      invariant chain == Elements(path[..k])
      invariant after == visited + chain
      decreases |path| - k
    {
      if current.value in chain || current.value in after || current.value !in keys {
        assert false;
        return false, after;
      }
      chain := chain + {current.value};
      after := after + {current.value};
      ElementsSnoc(path[..k], path[k]);
      assert path[..k + 1] == path[..k] + [path[k]];
      current := if current.value in outgoing then Some(outgoing[current.value].replacementId) else None;
      k := k + 1;
    }
    assert path[..k] == path;
    return true, after;
  }

  // ---------------------------------------------------------------- the theorem

  function KeyId(row: KeyRow): string { row.id }
  function OriginId(row: Origin): string { row.keyId }
  function OldId(link: Link): string { link.oldId }
  function ReplacementId(link: Link): string { link.replacementId }

  ghost predicate At(chains: seq<seq<string>>, i: int, j: int, id: string) {
    0 <= i < |chains| && 0 <= j < |chains[i]| && chains[i][j] == id
  }

  ghost predicate Step(chains: seq<seq<string>>, i: int, j: int, link: Link) {
    0 <= i < |chains| && 0 <= j < |chains[i]| - 1 && link == Link(chains[i][j], chains[i][j + 1])
  }

  ghost predicate IsStep(chains: seq<seq<string>>, link: Link) {
    exists i, j :: Step(chains, i, j, link)
  }

  /** No key occurs twice, neither within a chain nor in two chains. */
  ghost predicate Disjoint(chains: seq<seq<string>>) {
    forall i, j, i', j', id | At(chains, i, j, id) && At(chains, i', j', id) :: i == i' && j == j'
  }

  /** Every place of a chain holds a key of the origin's tenant, live exactly at the end. */
  ghost predicate RowsFollow(origins: seq<Origin>, keys: map<string, KeyRow>, chains: seq<seq<string>>)
    requires |chains| == |origins|
  {
    forall i, j, id | At(chains, i, j, id) ::
      && id in keys && keys[id].tenantId == origins[i].tenantId
      && (keys[id].revokedAt.None? <==> j == |chains[i]| - 1)
  }

  ghost predicate Covers(keys: map<string, KeyRow>, chains: seq<seq<string>>) {
    forall id | id in keys :: exists i, j :: At(chains, i, j, id)
  }

  /** The links are the consecutive pairs of the chains, each once. */
  ghost predicate LinksAreSteps(links: seq<Link>, chains: seq<seq<string>>) {
    && (forall i, j, link | Step(chains, i, j, link) :: link in links)
    && (forall x | 0 <= x < |links| :: IsStep(chains, links[x]))
    && (forall x, y | 0 <= x < y < |links| :: links[x] != links[y])
  }

  /** The keys partition into simple chains, one from each origin, and the links are their steps. */
  ghost predicate ChainPartition(
    origins: seq<Origin>, keys: map<string, KeyRow>, links: seq<Link>, chains: seq<seq<string>>)
  {
    && |chains| == |origins|
    && (forall i | 0 <= i < |chains| :: chains[i] != [] && chains[i][0] == origins[i].keyId)
    && Disjoint(chains)
    && RowsFollow(origins, keys, chains)
    && Covers(keys, chains)
    && LinksAreSteps(links, chains)
  }

  ghost predicate DocumentedLinks(audits: seq<AuditRow>, keys: map<string, KeyRow>, links: seq<Link>) {
    && |links| == |audits|
    && forall x | 0 <= x < |links| ::
         && links[x].oldId in keys && links[x].replacementId in keys
         && Documents(audits[x], keys[links[x].oldId], keys[links[x].replacementId])
  }

  /** A history the validator must accept, told without its maps and walks. */
  ghost predicate CanonicalHistory(state: State, links: seq<Link>, chains: seq<seq<string>>) {
    && UniqueIds(state.keys, KeyId)
    && UniqueIds(state.origins, OriginId)
    && DocumentedLinks(state.audits, MapBy(state.keys, KeyId), links)
    && (forall key | key in state.keys && key.keyHash.Some? :: IsSha256Hex(key.keyHash.value))
    && ChainPartition(state.origins, MapBy(state.keys, KeyId), links, chains)
  }

  ghost predicate Accepts(state: State) {
    exists links, chains :: CanonicalHistory(state, links, chains)
  }

  lemma KeyMapIsKeyed(rows: seq<KeyRow>)
    requires UniqueIds(rows, KeyId)
    ensures KeyedById(MapBy(rows, KeyId))
    ensures forall id | id in MapBy(rows, KeyId) :: MapBy(rows, KeyId)[id] in rows
    ensures forall row | row in rows :: row.id in MapBy(rows, KeyId) && MapBy(rows, KeyId)[row.id] == row
  {
    MapByLookup(rows, KeyId);
    forall id | id in MapBy(rows, KeyId)
      ensures id != ""
    {
      var i :| 0 <= i < |rows| && rows[i] == MapBy(rows, KeyId)[id];
      assert KeyId(rows[i]) != "";
    }
  }

  lemma DocumentedLinksRead(audits: seq<AuditRow>, keys: map<string, KeyRow>, links: seq<Link>)
    requires KeyedById(keys)
    ensures AllLinks(audits, keys) == Some(links) <==> DocumentedLinks(audits, keys, links)
  {
    AllLinksReads(audits, keys, links);
    forall x | 0 <= x < |audits| && x < |links|
      ensures CanonicalLink(audits[x], keys) == Some(links[x]) <==>
              && links[x].oldId in keys && links[x].replacementId in keys
              && Documents(audits[x], keys[links[x].oldId], keys[links[x].replacementId])
    {
      CanonicalLinkReads(audits[x], keys, links[x]);
    }
  }

  /** Distinct links of a partition leave distinct keys and reach distinct keys. */
  lemma PartitionDegrees(origins: seq<Origin>, keys: map<string, KeyRow>, links: seq<Link>, chains: seq<seq<string>>)
    requires KeyedById(keys) && ChainPartition(origins, keys, links, chains)
    ensures UniqueIds(links, OldId) && UniqueIds(links, ReplacementId)
  {
    forall x | 0 <= x < |links|
      ensures OldId(links[x]) != "" && ReplacementId(links[x]) != ""
    {
      assert IsStep(chains, links[x]);
      var i, j :| Step(chains, i, j, links[x]);
      assert At(chains, i, j, links[x].oldId) && At(chains, i, j + 1, links[x].replacementId);
    }
    forall x, y | 0 <= x < y < |links|
      ensures OldId(links[x]) != OldId(links[y]) && ReplacementId(links[x]) != ReplacementId(links[y])
    {
      assert IsStep(chains, links[x]) && IsStep(chains, links[y]);
      var i, j :| Step(chains, i, j, links[x]);
      var i', j' :| Step(chains, i', j', links[y]);
      assert At(chains, i, j, links[x].oldId) && At(chains, i, j + 1, links[x].replacementId);
      assert At(chains, i', j', links[y].oldId) && At(chains, i', j' + 1, links[y].replacementId);
    }
  }

  lemma LinkMaps(links: seq<Link>)
    requires UniqueIds(links, OldId) && UniqueIds(links, ReplacementId)
    ensures forall link | link in links ::
              && link.oldId in MapBy(links, OldId) && MapBy(links, OldId)[link.oldId] == link
              && link.replacementId in MapBy(links, ReplacementId)
              && MapBy(links, ReplacementId)[link.replacementId] == link
    ensures forall id | id in MapBy(links, OldId) ::
            MapBy(links, OldId)[id] in links && MapBy(links, OldId)[id].oldId == id
    ensures forall id | id in MapBy(links, ReplacementId) ::
              MapBy(links, ReplacementId)[id] in links && MapBy(links, ReplacementId)[id].replacementId == id
  {
    MapByLookup(links, OldId);
    MapByLookup(links, ReplacementId);
    forall link | link in links
      ensures link.oldId in MapBy(links, OldId) && MapBy(links, OldId)[link.oldId] == link
      ensures link.replacementId in MapBy(links, ReplacementId)
              && MapBy(links, ReplacementId)[link.replacementId] == link
    {
      var x :| 0 <= x < |links| && links[x] == link;
      assert OldId(links[x]) == link.oldId && ReplacementId(links[x]) == link.replacementId;
    }
  }

  /** The chains of a partition are what following the links from the origins yields. */
  lemma PartitionChains(origins: seq<Origin>, keys: map<string, KeyRow>, links: seq<Link>, chains: seq<seq<string>>,
      i: nat)
    requires KeyedById(keys) && ChainPartition(origins, keys, links, chains)
    requires UniqueIds(links, OldId) && UniqueIds(links, ReplacementId)
    requires i < |chains|
    ensures FullChain(MapBy(links, OldId), origins[i].keyId, chains[i])
  {
    var outgoing := MapBy(links, OldId);
    forall j | 0 <= j < |chains[i]| - 1
      ensures chains[i][j] in outgoing && outgoing[chains[i][j]].replacementId == chains[i][j + 1]
    {
      OccursInLinks(origins, keys, links, chains, i, j, chains[i][j]);
    }
    OccursInLinks(origins, keys, links, chains, i, |chains[i]| - 1, Last(chains[i]));
  }

  lemma PartitionValidDegrees(state: State, links: seq<Link>, chains: seq<seq<string>>)
    requires CanonicalHistory(state, links, chains)
    requires UniqueIds(links, OldId) && UniqueIds(links, ReplacementId)
    ensures ValidDegrees(state, MapBy(state.keys, KeyId), MapBy(state.origins, OriginId), MapBy(links, OldId),
            MapBy(links, ReplacementId))
  {
    var keys, origins := MapBy(state.keys, KeyId), MapBy(state.origins, OriginId);
    var outgoing, incoming := MapBy(links, OldId), MapBy(links, ReplacementId);
    KeyMapIsKeyed(state.keys);
    MapByLookup(state.origins, OriginId);
    forall origin | origin in state.origins
      ensures origin.keyId in keys && keys[origin.keyId].tenantId == origin.tenantId && origin.keyId !in incoming
    {
      var i :| 0 <= i < |state.origins| && state.origins[i] == origin;
      assert At(chains, i, 0, origin.keyId);
      OccursInLinks(state.origins, keys, links, chains, i, 0, origin.keyId);
    }
    forall key | key in state.keys
      ensures (key.revokedAt.None? != (key.id in outgoing)) && (key.id in origins || key.id in incoming)
    {
      var i, j :| At(chains, i, j, key.id);
      OccursInLinks(state.origins, keys, links, chains, i, j, key.id);
      if j == 0 {
        assert OriginId(state.origins[i]) == key.id;
      }
    }
  }

  /** A canonical history passes every check before the walks. */
  lemma CanonicalHistoryPasses(state: State, links: seq<Link>, chains: seq<seq<string>>)
    requires CanonicalHistory(state, links, chains)
    ensures AllLinks(state.audits, MapBy(state.keys, KeyId)) == Some(links)
    ensures UniqueIds(links, OldId) && UniqueIds(links, ReplacementId)
    ensures ValidDegrees(state, MapBy(state.keys, KeyId), MapBy(state.origins, OriginId), MapBy(links, OldId),
            MapBy(links, ReplacementId))
  {
    KeyMapIsKeyed(state.keys);
    DocumentedLinksRead(state.audits, MapBy(state.keys, KeyId), links);
    PartitionDegrees(state.origins, MapBy(state.keys, KeyId), links, chains);
    PartitionValidDegrees(state, links, chains);
  }

  /** In a partition, a key has a link out unless it is last, and a link in unless it is first. */
  lemma OccursInLinks(
    origins: seq<Origin>, keys: map<string, KeyRow>, links: seq<Link>, chains: seq<seq<string>>,
    i: int, j: int, id: string)
    requires KeyedById(keys) && ChainPartition(origins, keys, links, chains)
    requires At(chains, i, j, id)
    requires UniqueIds(links, OldId) && UniqueIds(links, ReplacementId)
    ensures id in MapBy(links, OldId) <==> j < |chains[i]| - 1
    ensures j < |chains[i]| - 1 ==> MapBy(links, OldId)[id].replacementId == chains[i][j + 1]
    ensures id in MapBy(links, ReplacementId) <==> j > 0
  {
    LinkMaps(links);
    if j < |chains[i]| - 1 {
      assert Step(chains, i, j, Link(id, chains[i][j + 1]));
    }
    if id in MapBy(links, OldId) {
      var x :| 0 <= x < |links| && links[x] == MapBy(links, OldId)[id];
      assert IsStep(chains, links[x]);
      var i', j' :| Step(chains, i', j', links[x]);
      assert At(chains, i', j', id);
    }
    if j > 0 {
      assert Step(chains, i, j - 1, Link(chains[i][j - 1], id));
    }
    if id in MapBy(links, ReplacementId) {
      var x :| 0 <= x < |links| && links[x] == MapBy(links, ReplacementId)[id];
      assert IsStep(chains, links[x]);
      var i', j' :| Step(chains, i', j', links[x]);
      assert At(chains, i', j' + 1, id);
    }
  }

  /** The keys reached by the first n chains. */
  ghost function Reached(chains: seq<seq<string>>): set<string> {
    if chains == [] then {} else Reached(chains[..|chains| - 1]) + Elements(chains[|chains| - 1])
  }

  lemma {:induction false} ReachedAt(chains: seq<seq<string>>, id: string)
    ensures id in Reached(chains) <==> exists i, j :: At(chains, i, j, id)
  {
    if chains != [] {
      var n := |chains| - 1;
      ReachedAt(chains[..n], id);
      if i, j :| At(chains[..n], i, j, id) {
        assert At(chains, i, j, id);
      }
      if j :| 0 <= j < |chains[n]| && chains[n][j] == id {
        assert At(chains, n, j, id);
      }
      if i, j :| At(chains, i, j, id) {
        if i < n {
          assert At(chains[..n], i, j, id);
        }
      }
    }
  }

  /** The link maps of canonical audits form the graph the walks rely on. */
  lemma LinksFormGraph(audits: seq<AuditRow>, keys: map<string, KeyRow>, links: seq<Link>)
    requires KeyedById(keys) && DocumentedLinks(audits, keys, links)
    requires UniqueIds(links, OldId) && UniqueIds(links, ReplacementId)
    ensures Graph(keys, MapBy(links, OldId), MapBy(links, ReplacementId))
  {
    LinkMaps(links);
    forall id | id in MapBy(links, OldId)
      ensures var link := MapBy(links, OldId)[id];
              && link.oldId in keys && link.replacementId in keys
              && keys[link.replacementId].tenantId == keys[link.oldId].tenantId
    {
      var x :| 0 <= x < |links| && links[x] == MapBy(links, OldId)[id];
      assert Documents(audits[x], keys[links[x].oldId], keys[links[x].replacementId]);
    }
  }

  /** The state of the walks: one full chain of the graph from every origin. */
  ghost predicate Walked(
    origins: seq<Origin>, keys: map<string, KeyRow>, outgoing: map<string, Link>, incoming: map<string, Link>,
    chains: seq<seq<string>>)
  {
    && UniqueIds(origins, OriginId)
    && WalkReady(origins, keys, outgoing, incoming)
    && |chains| == |origins|
    && forall i | 0 <= i < |chains| :: FullChain(outgoing, origins[i].keyId, chains[i])
  }

  lemma WalksAreDisjoint(
    origins: seq<Origin>, keys: map<string, KeyRow>, outgoing: map<string, Link>, incoming: map<string, Link>,
    chains: seq<seq<string>>)
    requires Walked(origins, keys, outgoing, incoming, chains)
    ensures Disjoint(chains)
  {
    forall i, j, i', j', id | At(chains, i, j, id) && At(chains, i', j', id)
      ensures i == i' && j == j'
    {
      PathsMeet(keys, outgoing, incoming, chains[i], chains[i'], j, j');
      assert OriginId(origins[i]) == OriginId(origins[i']);
    }
  }

  lemma WalkedRow(
    origins: seq<Origin>, keys: map<string, KeyRow>, outgoing: map<string, Link>, incoming: map<string, Link>,
    chains: seq<seq<string>>, i: int, j: int, id: string)
    requires Walked(origins, keys, outgoing, incoming, chains) && At(chains, i, j, id)
    ensures id in keys && keys[id].tenantId == origins[i].tenantId
    ensures keys[id].revokedAt.None? <==> j == |chains[i]| - 1
    ensures j < |chains[i]| - 1 <==> id in outgoing
    ensures j < |chains[i]| - 1 ==> outgoing[id] == Link(id, chains[i][j + 1])
    ensures j > 0 <==> id in incoming
    ensures j > 0 ==> incoming[id] == Link(chains[i][j - 1], id)
  {
    assert FullChain(outgoing, origins[i].keyId, chains[i]);
    PathTenant(keys, outgoing, incoming, chains[i], j);
    if j > 0 {
      assert outgoing[chains[i][j - 1]] == Link(chains[i][j - 1], id);
    }
  }

  lemma WalksFollow(
    origins: seq<Origin>, keys: map<string, KeyRow>, outgoing: map<string, Link>, incoming: map<string, Link>,
    chains: seq<seq<string>>)
    requires Walked(origins, keys, outgoing, incoming, chains)
    ensures RowsFollow(origins, keys, chains)
    ensures Reached(chains) <= keys.Keys
  {
    forall i, j, id | At(chains, i, j, id)
      ensures id in keys && keys[id].tenantId == origins[i].tenantId
      ensures keys[id].revokedAt.None? <==> j == |chains[i]| - 1
    {
      WalkedRow(origins, keys, outgoing, incoming, chains, i, j, id);
    }
    forall id | id in Reached(chains)
      ensures id in keys
    {
      ReachedAt(chains, id);
    }
  }

  lemma WalkedStep(
    origins: seq<Origin>, keys: map<string, KeyRow>, outgoing: map<string, Link>, incoming: map<string, Link>,
    chains: seq<seq<string>>, id: string)
    requires Walked(origins, keys, outgoing, incoming, chains)
    requires id in Reached(chains) && id in outgoing
    ensures IsStep(chains, outgoing[id])
  {
    ReachedAt(chains, id);
    var i, j :| At(chains, i, j, id);
    WalkedRow(origins, keys, outgoing, incoming, chains, i, j, id);
    assert Step(chains, i, j, outgoing[id]);
  }

  lemma WalksTakeTheLinks(
    origins: seq<Origin>, keys: map<string, KeyRow>, links: seq<Link>, chains: seq<seq<string>>)
    requires UniqueIds(links, OldId) && UniqueIds(links, ReplacementId)
    requires Walked(origins, keys, MapBy(links, OldId), MapBy(links, ReplacementId), chains)
    requires keys.Keys <= Reached(chains)
    ensures LinksAreSteps(links, chains)
  {
    var outgoing, incoming := MapBy(links, OldId), MapBy(links, ReplacementId);
    forall i, j, link | Step(chains, i, j, link)
      ensures link in links
    {
      LinkMaps(links);
      WalkedRow(origins, keys, outgoing, incoming, chains, i, j, chains[i][j]);
    }
    forall x | 0 <= x < |links|
      ensures IsStep(chains, links[x])
    {
      LinkMaps(links);
      assert links[x] in links;
      WalkedStep(origins, keys, outgoing, incoming, chains, links[x].oldId);
      assert outgoing[links[x].oldId] == links[x];
    }
    assert forall x, y | 0 <= x < y < |links| :: OldId(links[x]) != OldId(links[y]);
  }

  /** Walks that together reach every key are a partition of the keys. */
  lemma WalksPartition(origins: seq<Origin>, keys: map<string, KeyRow>, links: seq<Link>, chains: seq<seq<string>>)
    requires UniqueIds(links, OldId) && UniqueIds(links, ReplacementId)
    requires Walked(origins, keys, MapBy(links, OldId), MapBy(links, ReplacementId), chains)
    requires keys.Keys <= Reached(chains)
    ensures ChainPartition(origins, keys, links, chains)
  {
    WalksAreDisjoint(origins, keys, MapBy(links, OldId), MapBy(links, ReplacementId), chains);
    WalksFollow(origins, keys, MapBy(links, OldId), MapBy(links, ReplacementId), chains);
    WalksTakeTheLinks(origins, keys, links, chains);
    forall id | id in keys
      ensures exists i, j :: At(chains, i, j, id)
    {
      ReachedAt(chains, id);
    }
    forall i | 0 <= i < |chains|
      ensures chains[i] != [] && chains[i][0] == origins[i].keyId
    {
      assert FullChain(MapBy(links, OldId), origins[i].keyId, chains[i]);
    }
  }

  /** The keys of the walked chains, once the degree checks have passed. */
  ghost predicate Walkable(state: State, keys: map<string, KeyRow>, links: seq<Link>) {
    && UniqueIds(state.keys, KeyId) && keys == MapBy(state.keys, KeyId)
    && UniqueIds(state.origins, OriginId)
    && DocumentedLinks(state.audits, keys, links)
    && UniqueIds(links, OldId) && UniqueIds(links, ReplacementId)
    && ValidDegrees(state, keys, MapBy(state.origins, OriginId), MapBy(links, OldId), MapBy(links, ReplacementId))
  }

  lemma WalkableIsReady(state: State, keys: map<string, KeyRow>, links: seq<Link>)
    requires Walkable(state, keys, links)
    ensures WalkReady(state.origins, keys, MapBy(links, OldId), MapBy(links, ReplacementId))
  {
    KeyMapIsKeyed(state.keys);
    LinksFormGraph(state.audits, keys, links);
    forall id | id in keys
      ensures keys[id].revokedAt.None? != (id in MapBy(links, OldId))
    {
      assert keys[id] in state.keys;
    }
  }

  /** What an unreached key points at, and what points at it, is unreached too. */
  lemma UnreachedNeighbours(
    origins: seq<Origin>, keys: map<string, KeyRow>, outgoing: map<string, Link>, incoming: map<string, Link>,
    chains: seq<seq<string>>, link: Link)
    requires Walked(origins, keys, outgoing, incoming, chains)
    requires link.oldId in outgoing && outgoing[link.oldId] == link
    ensures link.oldId in Reached(chains) <==> link.replacementId in Reached(chains)
  {
    ReachedAt(chains, link.oldId);
    ReachedAt(chains, link.replacementId);
    if i, j :| At(chains, i, j, link.oldId) {
      WalkedRow(origins, keys, outgoing, incoming, chains, i, j, link.oldId);
      assert At(chains, i, j + 1, link.replacementId);
    }
    if i, j :| At(chains, i, j, link.replacementId) {
      WalkedRow(origins, keys, outgoing, incoming, chains, i, j, link.replacementId);
      assert At(chains, i, j - 1, link.oldId);
    }
  }

  /** Keys on no chain sit on detached rings: each is revoked and its successor is detached too. */
  lemma DetachedRings(
    origins: seq<Origin>, keys: map<string, KeyRow>, outgoing: map<string, Link>, incoming: map<string, Link>,
    chains: seq<seq<string>>)
    requires Walked(origins, keys, outgoing, incoming, chains)
    requires forall id | id in incoming :: incoming[id].replacementId == id
    requires forall id | id in incoming ::
             incoming[id].oldId in outgoing && outgoing[incoming[id].oldId] == incoming[id]
    requires forall id | id in keys && id !in Reached(chains) :: id in incoming
    ensures forall id | id in keys && id !in Reached(chains) ::
              && keys[id].revokedAt.Some? && id in outgoing
              && outgoing[id].replacementId in keys.Keys - Reached(chains)
  {
    var detached := keys.Keys - Reached(chains);
    forall id | id in detached
      ensures incoming[id].oldId in detached
    {
      UnreachedNeighbours(origins, keys, outgoing, incoming, chains, incoming[id]);
    }
    PredecessorsClose(detached, outgoing, incoming);
    forall id | id in detached
      ensures id in outgoing && outgoing[id].replacementId in detached
    {
      UnreachedNeighbours(origins, keys, outgoing, incoming, chains, outgoing[id]);
    }
  }

  /** A finite set of keys that holds the predecessor of each member also has a successor of each. */
  lemma PredecessorsClose(detached: set<string>, outgoing: map<string, Link>, incoming: map<string, Link>)
    requires detached <= incoming.Keys
    requires forall id {:trigger incoming[id]} | id in detached ::
               && incoming[id].replacementId == id && incoming[id].oldId in detached
               && incoming[id].oldId in outgoing && outgoing[incoming[id].oldId] == incoming[id]
    ensures detached <= outgoing.Keys
  {
    var before := map id | id in detached :: incoming[id].oldId;
    forall x, y | x in before && y in before && before[x] == before[y]
      ensures x == y
    {
      assert outgoing[before[x]] == incoming[x] && outgoing[before[y]] == incoming[y];
    }
    assert before.Keys == detached;
    InjectiveIsOnto(before);
    forall id | id in detached
      ensures id in outgoing
    {
      var next :| next in before && before[next] == id;
    }
  }

  lemma UnreachedIsPointedAt(
    state: State, keys: map<string, KeyRow>, outgoing: map<string, Link>, incoming: map<string, Link>,
    chains: seq<seq<string>>, id: string)
    requires UniqueIds(state.keys, KeyId) && keys == MapBy(state.keys, KeyId)
    requires Walked(state.origins, keys, outgoing, incoming, chains)
    requires ValidDegrees(state, keys, MapBy(state.origins, OriginId), outgoing, incoming)
    requires id in keys && id !in Reached(chains)
    ensures id in incoming
  {
    KeyMapIsKeyed(state.keys);
    assert keys[id] in state.keys;
    if id in MapBy(state.origins, OriginId) {
      MapByLookup(state.origins, OriginId);
      var i :| 0 <= i < |state.origins| && state.origins[i] == MapBy(state.origins, OriginId)[id];
      assert FullChain(outgoing, id, chains[i]);
      assert At(chains, i, 0, id);
      ReachedAt(chains, id);
    }
  }

  /** After the degree checks, the keys on no chain are all revoked: they form detached rings. */
  lemma WalkableDetachedRings(state: State, keys: map<string, KeyRow>, links: seq<Link>, chains: seq<seq<string>>)
    requires Walkable(state, keys, links)
    requires Walked(state.origins, keys, MapBy(links, OldId), MapBy(links, ReplacementId), chains)
    ensures forall id | id in keys && id !in Reached(chains) ::
              && keys[id].revokedAt.Some? && id in MapBy(links, OldId)
              && MapBy(links, OldId)[id].replacementId in keys.Keys - Reached(chains)
  {
    var outgoing, incoming := MapBy(links, OldId), MapBy(links, ReplacementId);
    forall id | id in keys && id !in Reached(chains)
      ensures id in incoming
    {
      UnreachedIsPointedAt(state, keys, outgoing, incoming, chains, id);
    }
    LinkMaps(links);
    DetachedRings(state.origins, keys, outgoing, incoming, chains);
  }

  lemma AcceptedChainsAreWalked(
    state: State, links: seq<Link>, chains: seq<seq<string>>, links': seq<Link>, chains': seq<seq<string>>)
    requires Walkable(state, MapBy(state.keys, KeyId), links)
    requires |chains| == |state.origins|
    requires forall i | 0 <= i < |chains| :: FullChain(MapBy(links, OldId), state.origins[i].keyId, chains[i])
    requires CanonicalHistory(state, links', chains')
    ensures links' == links && chains' == chains
  {
    KeyMapIsKeyed(state.keys);
    DocumentedLinksRead(state.audits, MapBy(state.keys, KeyId), links);
    CanonicalHistoryPasses(state, links', chains');
    forall i | 0 <= i < |chains|
      ensures chains[i] == chains'[i]
    {
      PartitionChains(state.origins, MapBy(state.keys, KeyId), links, chains', i);
      ChainUnique(MapBy(links, OldId), state.origins[i].keyId, chains[i], chains'[i]);
    }
  }

  /** Once the degree checks pass, only the size check can reject, and it decides acceptance. */
  lemma SizeCheckDecides(state: State, keys: map<string, KeyRow>, links: seq<Link>, chains: seq<seq<string>>)
    requires Walkable(state, keys, links)
    requires Walked(state.origins, keys, MapBy(links, OldId), MapBy(links, ReplacementId), chains)
    ensures |Reached(chains)| == |keys| <==> Accepts(state)
  {
    WalksFollow(state.origins, keys, MapBy(links, OldId), MapBy(links, ReplacementId), chains);
    SubsetSize(Reached(chains), keys.Keys);
    if Reached(chains) == keys.Keys {
      WalksPartition(state.origins, keys, links, chains);
      assert CanonicalHistory(state, links, chains);
    }
    if links', chains' :| CanonicalHistory(state, links', chains') {
      AcceptedChainsAreWalked(state, links, chains, links', chains');
      forall id | id in keys
        ensures id in Reached(chains)
      {
        ReachedAt(chains, id);
      }
    }
  }

  /** validateApiKeyRotationChains. */
  method ValidateApiKeyRotationChains(state: State) returns (r: Outcome)
    ensures r.Current? <==> Accepts(state)
    ensures forall links, chains | CanonicalHistory(state, links, chains) ::
              r == Current(CurrentKeys(state.origins, chains))
  {
    forall links, chains | CanonicalHistory(state, links, chains)
      ensures AllLinks(state.audits, MapBy(state.keys, KeyId)) == Some(links)
      ensures UniqueIds(links, OldId) && UniqueIds(links, ReplacementId)
      ensures ValidDegrees(state, MapBy(state.keys, KeyId), MapBy(state.origins, OriginId),
                           MapBy(links, OldId), MapBy(links, ReplacementId))
    {
      CanonicalHistoryPasses(state, links, chains);
    }
    var keyMap := UniqueMap(state.keys, KeyId);
    if keyMap.None? { return Ambiguous; }
    var originMap := UniqueMap(state.origins, OriginId);
    if originMap.None? { return Ambiguous; }
    var links := AllLinks(state.audits, keyMap.value);
    if links.None? { return Ambiguous; }
    var outgoing := UniqueMap(links.value, OldId);
    if outgoing.None? { return Ambiguous; }
    var incoming := UniqueMap(links.value, ReplacementId);
    if incoming.None? { return Ambiguous; }
    if !ValidDegrees(state, keyMap.value, originMap.value, outgoing.value, incoming.value) {
      return Ambiguous;
    }
    KeyMapIsKeyed(state.keys);
    DocumentedLinksRead(state.audits, keyMap.value, links.value);
    r := WalkAll(state, keyMap.value, links.value, outgoing.value);
  }

  /** The two walks and the final size check. */
  method WalkAll(state: State, keys: map<string, KeyRow>, links: seq<Link>, outgoing: map<string, Link>)
    returns (r: Outcome)
    requires Walkable(state, keys, links) && outgoing == MapBy(links, OldId)
    ensures r.Current? <==> Accepts(state)
    ensures forall links', chains' | CanonicalHistory(state, links', chains') ::
              r == Current(CurrentKeys(state.origins, chains'))
  {
    ghost var incoming := MapBy(links, ReplacementId);
    WalkableIsReady(state, keys, links);
    var current, chains := WalkOrigins(state.origins, keys, outgoing, incoming);
    if current.None? { return Ambiguous; }
    var visited := WalkOrigin(state.origins, keys, outgoing, incoming, chains);
    SizeCheckDecides(state, keys, links, chains);
    forall links', chains' | CanonicalHistory(state, links', chains')
      ensures chains' == chains
    {
      AcceptedChainsAreWalked(state, links, chains, links', chains');
    }
    OutgoingSize(links);
    if |visited| != |keys| || |links| != |outgoing| {
      return Ambiguous;
    }
    return Current(current.value);
  }

  lemma {:induction false} OutgoingSize(links: seq<Link>)
    requires UniqueIds(links, OldId)
    ensures |MapBy(links, OldId)| == |links|
  {
    if links != [] {
      var n := |links| - 1;
      UniquePrefix(links, n, OldId);
      UniqueSnoc(links, n, OldId);
      OutgoingSize(links[..n]);
      assert links[..n + 1] == links;
    }
  }

  /** The loop of walk over the origins: every chain is visited, and no guard fires. */
  method WalkOrigin(
    origins: seq<Origin>, keys: map<string, KeyRow>, outgoing: map<string, Link>, ghost incoming: map<string, Link>,
    ghost chains: seq<seq<string>>)
    returns (visited: set<string>)
    requires WalkReady(origins, keys, outgoing, incoming)
    requires UniqueIds(origins, OriginId)
    requires |chains| == |origins|
    requires forall i | 0 <= i < |origins| :: FullChain(outgoing, origins[i].keyId, chains[i])
    ensures visited == Reached(chains) && visited <= keys.Keys
  {
    visited := {};
    for i := 0 to |origins|
      invariant visited == Reached(chains[..i]) && visited <= keys.Keys
    {
      FreshChain(origins, keys, outgoing, incoming, chains, i);
      var ok;
      ok, visited := Walk(origins[i].keyId, keys, outgoing, visited, chains[i]);
      assert chains[..i + 1][..i] == chains[..i];
    }
    assert chains[..|chains|] == chains;
  }

  lemma FreshChain(
    origins: seq<Origin>, keys: map<string, KeyRow>, outgoing: map<string, Link>, incoming: map<string, Link>,
    chains: seq<seq<string>>, i: nat)
    requires WalkReady(origins, keys, outgoing, incoming)
    requires UniqueIds(origins, OriginId)
    requires |chains| == |origins| && i < |origins|
    requires forall i | 0 <= i < |origins| :: FullChain(outgoing, origins[i].keyId, chains[i])
    ensures Elements(chains[i]) <= keys.Keys
    ensures Elements(chains[i]) !! Reached(chains[..i])
    ensures forall j, j' | 0 <= j < j' < |chains[i]| :: chains[i][j] != chains[i][j']
  {
    forall j | 0 <= j < |chains[i]|
      ensures chains[i][j] in keys
    {
      PathTenant(keys, outgoing, incoming, chains[i], j);
    }
    forall j, j' | 0 <= j < j' < |chains[i]|
      ensures chains[i][j] != chains[i][j']
    {
      if chains[i][j] == chains[i][j'] {
        PathsMeet(keys, outgoing, incoming, chains[i], chains[i], j, j');
      }
    }
    forall id | id in Elements(chains[i])
      ensures id !in Reached(chains[..i])
    {
      ReachedAt(chains[..i], id);
      if i', j' :| At(chains[..i], i', j', id) {
        var j :| 0 <= j < |chains[i]| && chains[i][j] == id;
        assert OriginId(origins[i']) != OriginId(origins[i]);
        PathsMeet(keys, outgoing, incoming, chains[i], chains[i'], j, j');
      }
    }
  }
}
