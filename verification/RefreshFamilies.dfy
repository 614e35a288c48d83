/**
 * Refresh-token families: login, rotation with reuse detection, logout and administration
 * (core/tenant/auth-login-repository.ts, auth-refresh-repository.ts, auth-refresh-rotation.ts,
 * auth-logout-repository.ts). Each transaction locks the rows it decides on, so it is one
 * atomic step; its timestamp was taken when it began and is therefore any number.
 */
module RefreshFamilies {
  import opened Common

  type Digest = string

  /** How a family was revoked; ByAdministration covers a user's deactivation, role change or password reset. */
  datatype Revocation = ByReuse | ByInactivity(reason: Inactive) | ByLogout | ByAdministration

  datatype Inactive = TenantInactive | UserInactive

  datatype Family = Family(tenantId: string, userId: string, absolute: int, revoked: Option<Revocation>)

  datatype Token = Token(
    id: string, tenantId: string, familyId: string, parent: Option<string>,
    digest: Digest, csrf: Digest, idle: int, used: bool)

  datatype User = User(id: string, tenantId: string, email: string, active: bool, passwordHash: Option<string>)

  datatype Action = LoginSucceeded | LoginDenied(reason: Inactive) | RefreshReuseDetected | LogoutSucceeded

  /** An audit row. The table has no family column: `family` records which family's change the row belongs to. */
  datatype Audit = Audit(action: Action, tenantId: string, userId: string, requestId: string, family: Option<string>)

  datatype Db = Db(
    tenants: map<string, bool>, users: seq<User>, families: map<string, Family>, tokens: seq<Token>, audit: seq<Audit>)

  datatype LoginInput = LoginInput(
    tenantId: string, email: string, expectedPasswordHash: string, requestId: string,
    familyId: string, tokenId: string, tokenDigest: Digest, csrfDigest: Digest)

  datatype RefreshInput = RefreshInput(
    familyId: string, presentedDigest: Digest, presentedCsrf: Digest, requestId: string,
    childId: string, childDigest: Digest, childCsrf: Digest)

  datatype LogoutInput = LogoutInput(familyId: string, presentedDigest: Digest, presentedCsrf: Digest,
      requestId: string)

  datatype Result = Issued | Invalid | CsrfInvalid | Denied(reason: Inactive) | Complete | Unavailable

  /** Aborts: a statement or the commit failed. CommitUnacknowledged: committed, but the caller saw an error. */
  datatype Fault = NoFault | Aborts | CommitUnacknowledged

  // Timestamps are microseconds.
  const DAY := 86_400_000_000
  const IDLE_LIFETIME := 7 * DAY
  const ABSOLUTE_LIFETIME := 30 * DAY

  // ---------------------------------------------------------------- reads

  /** The positions of the tokens of a family with a digest, oldest first. */
  function Matches(tokens: seq<Token>, familyId: string, digest: Digest): seq<nat> {
    if tokens == [] then [] else
    var n := |tokens| - 1;
    Matches(tokens[..n], familyId, digest) +
    (if tokens[n].familyId == familyId && tokens[n].digest == digest then [n] else [])
  }

  function FindUser(users: seq<User>, tenantId: string, id: string): Option<User> {
    if users == [] then None
    else if users[0].tenantId == tenantId && users[0].id == id then Some(users[0])
    else FindUser(users[1..], tenantId, id)
  }

  function FindByEmail(users: seq<User>, tenantId: string, email: string): Option<User> {
    if users == [] then None
    else if users[0].tenantId == tenantId && users[0].email == email then Some(users[0])
    else FindByEmail(users[1..], tenantId, email)
  }

  /** findFamilyId: the read each client makes before its transaction. */
  function FindFamilyId(tokens: seq<Token>, digest: Digest): Option<string> {
    if tokens == [] then None
    else if tokens[|tokens| - 1].digest == digest then Some(tokens[|tokens| - 1].familyId)
    else FindFamilyId(tokens[..|tokens| - 1], digest)
  }

  datatype Row = Row(token: nat, tenantActive: bool, userActive: bool)

  /** readRefresh: the presented token joined with its family's owner, when exactly one row matches. */
  function ReadRow(db: Db, familyId: string, digest: Digest): (r: Option<Row>)
    requires familyId in db.families
    ensures r.Some? ==> Matches(db.tokens, familyId, digest) == [r.value.token]
  {
    var family := db.families[familyId];
    var rows := Matches(db.tokens, familyId, digest);
    var user := FindUser(db.users, family.tenantId, family.userId);
    if |rows| != 1 || family.tenantId !in db.tenants || user.None? then None
    else Some(Row(rows[0], db.tenants[family.tenantId], user.value.active))
  }

  function InactiveReason(tenantActive: bool, userActive: bool): Option<Inactive> {
    if !tenantActive then Some(TenantInactive) else if !userActive then Some(UserInactive) else None
  }

  /** Primary key and token_digest uniqueness. */
  predicate Insertable(tokens: seq<Token>, token: Token) {
    forall t | t in tokens :: t.id != token.id && t.digest != token.digest
  }

  // ---------------------------------------------------------------- the transactions, as committed

  function Revoke(db: Db, familyId: string, revocation: Revocation, action: Action, requestId: string): Db
    requires familyId in db.families
  {
    var family := db.families[familyId];
    db.(families := db.families[familyId := family.(revoked := Some(revocation))],
        audit := db.audit + [Audit(action, family.tenantId, family.userId, requestId, Some(familyId))])
  }

  function Child(db: Db, input: RefreshInput, parent: Token, timestamp: int): Token
    requires input.familyId in db.families
  {
    Token(input.childId, parent.tenantId, input.familyId, Some(parent.id), input.childDigest, input.childCsrf,
          Min(timestamp + IDLE_LIFETIME, db.families[input.familyId].absolute), false)
  }

  function RefreshEffect(db: Db, input: RefreshInput, timestamp: int): (Result, Db) {
    if input.familyId !in db.families then (Invalid, db) else
    var row := ReadRow(db, input.familyId, input.presentedDigest);
    if row.None? then (Invalid, db) else
    var i := MatchInRange(db.tokens, input.familyId, input.presentedDigest, row.value.token);
    var token, family := db.tokens[i], db.families[input.familyId];
    if token.csrf != input.presentedCsrf then (CsrfInvalid, db) else
    if family.revoked.Some? then (Invalid, db) else
    var inactive := InactiveReason(row.value.tenantActive, row.value.userActive);
    if inactive.Some? then
      (Denied(inactive.value),
       Revoke(db, input.familyId, ByInactivity(inactive.value), LoginDenied(inactive.value), input.requestId))
    else if token.used then
      (Invalid, Revoke(db, input.familyId, ByReuse, RefreshReuseDetected, input.requestId))
    else if token.idle <= timestamp || family.absolute <= timestamp then (Invalid, db)
    else
      var tokens := db.tokens[i := token.(used := true)];
      var child := Child(db, input, token, timestamp);
      if !Insertable(tokens, child) then (Unavailable, db)
      else (Issued, db.(tokens := tokens + [child]))
  }

  function LogoutEffect(db: Db, input: LogoutInput): (Result, Db) {
    if input.familyId !in db.families then (Complete, db) else
    var rows := Matches(db.tokens, input.familyId, input.presentedDigest);
    if |rows| != 1 then (Complete, db) else
    var i := MatchInRange(db.tokens, input.familyId, input.presentedDigest, rows[0]);
    if db.tokens[i].csrf != input.presentedCsrf then (CsrfInvalid, db)
    else if db.families[input.familyId].revoked.Some? then (Complete, db)
    else (Complete, Revoke(db, input.familyId, ByLogout, LogoutSucceeded, input.requestId))
  }

  function LoginEffect(db: Db, input: LoginInput, timestamp: int): (Result, Db) {
    var user := FindByEmail(db.users, input.tenantId, input.email);
    if input.tenantId !in db.tenants || user.None? then (Invalid, db) else
    if user.value.passwordHash != Some(input.expectedPasswordHash) then (Invalid, db) else
    var inactive := InactiveReason(db.tenants[input.tenantId], user.value.active);
    if inactive.Some? then
      (Denied(inactive.value),
       db.(audit := db.audit
           + [Audit(LoginDenied(inactive.value), input.tenantId, user.value.id, input.requestId, None)]))
    else
      var root := Token(input.tokenId, input.tenantId, input.familyId, None, input.tokenDigest, input.csrfDigest,
                        timestamp + IDLE_LIFETIME, false);
      if input.familyId in db.families || !Insertable(db.tokens, root) then (Unavailable, db)
      else
        (Issued,
         db.(families := db.families[input.familyId :=
               Family(input.tenantId, user.value.id, timestamp + ABSOLUTE_LIFETIME, None)],
             tokens := db.tokens + [root],
             audit := db.audit + [Audit(LoginSucceeded, input.tenantId, user.value.id, input.requestId, None)]))
  }

  /** UPDATE auth_refresh_families ... WHERE user_id = $2 AND revoked_at IS NULL, as users-repository.ts runs it. */
  function RevokeUserFamilies(families: map<string, Family>, tenantId: string, userId: string): map<string, Family> {
    map f | f in families ::
      if families[f].tenantId == tenantId && families[f].userId == userId && families[f].revoked.None?
      then families[f].(revoked := Some(ByAdministration))
      else families[f]
  }

  function MatchInRange(tokens: seq<Token>, familyId: string, digest: Digest, i: nat): (r: nat)
    requires i in Matches(tokens, familyId, digest)
    ensures r == i && i < |tokens| && tokens[i].familyId == familyId && tokens[i].digest == digest
  {
    MatchesAre(tokens, familyId, digest, i);
    i
  }

  lemma {:induction false} MatchesAre(tokens: seq<Token>, familyId: string, digest: Digest, i: nat)
    ensures i in Matches(tokens, familyId, digest) <==>
            i < |tokens| && tokens[i].familyId == familyId && tokens[i].digest == digest
  {
    if tokens != [] {
      MatchesAre(tokens[..|tokens| - 1], familyId, digest, i);
    }
  }

  // ---------------------------------------------------------------- the stores

  class SessionStore {
    var tenants: map<string, bool>
    var users: seq<User>
    var families: map<string, Family>
    var tokens: seq<Token>
    var audit: seq<Audit>

    function Contents(): Db
      reads this
    {
      Db(tenants, users, families, tokens, audit)
    }

    constructor (tenants: map<string, bool>, users: seq<User>)
      ensures Contents() == Db(tenants, users, map[], [], [])
    {
      this.tenants, this.users := tenants, users;
      families, tokens, audit := map[], [], [];
    }

    /** COMMIT or ROLLBACK of the working copies of the changed tables. */
    method Finish(families': map<string, Family>, tokens': seq<Token>, audit': seq<Audit>, result: Result, fault: Fault)
      returns (r: Result)
      modifies this
      ensures Contents() == if fault.Aborts? then old(Contents())
                            else old(Contents()).(families := families', tokens := tokens', audit := audit')
      ensures r == if fault.NoFault? then result else Unavailable
    {
      if !fault.Aborts? {
        families, tokens, audit := families', tokens', audit';
      }
      return if fault.NoFault? then result else Unavailable;
    }

    /** rotateTransaction with evaluateLockedRefresh, revokeInactive, revokeReuse and rotateCurrent. */
    method RefreshTransaction(input: RefreshInput, timestamp: int, fault: Fault) returns (r: Result)
      modifies this
      ensures Contents() ==
        if fault.Aborts? then old(Contents()) else RefreshEffect(old(Contents()), input, timestamp).1
      ensures r == if fault.NoFault? then RefreshEffect(old(Contents()), input, timestamp).0 else Unavailable
    {
      var txFamilies, txTokens, txAudit := families, tokens, audit;
      if input.familyId !in txFamilies {
        r := Finish(txFamilies, txTokens, txAudit, Invalid, fault);
        return;
      }
      var row := ReadRow(Contents(), input.familyId, input.presentedDigest);
      if row.None? {
        r := Finish(txFamilies, txTokens, txAudit, Invalid, fault);
        return;
      }
      var i := MatchInRange(txTokens, input.familyId, input.presentedDigest, row.value.token);
      var token, family := txTokens[i], txFamilies[input.familyId];
      var inactive := InactiveReason(row.value.tenantActive, row.value.userActive);
      r := Invalid;
      if token.csrf != input.presentedCsrf {
        r := CsrfInvalid;
      } else if family.revoked.Some? {
        r := Invalid;
      } else if inactive.Some? {
        txFamilies := txFamilies[input.familyId := family.(revoked := Some(ByInactivity(inactive.value)))];
        txAudit := txAudit
          + [Audit(LoginDenied(inactive.value), family.tenantId, family.userId, input.requestId, Some(input.familyId))];
        r := Denied(inactive.value);
      } else if token.used {
        txFamilies := txFamilies[input.familyId := family.(revoked := Some(ByReuse))];
        txAudit := txAudit
          + [Audit(RefreshReuseDetected, family.tenantId, family.userId, input.requestId, Some(input.familyId))];
      } else if timestamp < token.idle && timestamp < family.absolute {
        txTokens := txTokens[i := token.(used := true)];
        var child := Child(Contents(), input, token, timestamp);
        if Insertable(txTokens, child) {
          txTokens := txTokens + [child];
          r := Issued;
        } else {
          txTokens := tokens;
          r := Unavailable;
        }
      }
      r := Finish(txFamilies, txTokens, txAudit, r, fault);
    }

    /** logoutTransaction with revokeAndAudit. */
    method LogoutTransaction(input: LogoutInput, fault: Fault) returns (r: Result)
      modifies this
      ensures Contents() == if fault.Aborts? then old(Contents()) else LogoutEffect(old(Contents()), input).1
      ensures r == if fault.NoFault? then LogoutEffect(old(Contents()), input).0 else Unavailable
    {
      var txFamilies, txAudit := families, audit;
      r := Complete;
      if input.familyId in txFamilies {
        var rows := Matches(tokens, input.familyId, input.presentedDigest);
        if |rows| == 1 {
          var i := MatchInRange(tokens, input.familyId, input.presentedDigest, rows[0]);
          var family := txFamilies[input.familyId];
          if tokens[i].csrf != input.presentedCsrf {
            r := CsrfInvalid;
          } else if family.revoked.None? {
            txFamilies := txFamilies[input.familyId := family.(revoked := Some(ByLogout))];
            txAudit := txAudit
              + [Audit(LogoutSucceeded, family.tenantId, family.userId, input.requestId, Some(input.familyId))];
          }
        }
      }
      r := Finish(txFamilies, tokens, txAudit, r, fault);
    }

    /** loginTransaction with evaluateLockedLogin and insertSession. */
    method LoginTransaction(input: LoginInput, timestamp: int, fault: Fault) returns (r: Result)
      modifies this
      ensures Contents() == if fault.Aborts? then old(Contents()) else LoginEffect(old(Contents()), input, timestamp).1
      ensures r == if fault.NoFault? then LoginEffect(old(Contents()), input, timestamp).0 else Unavailable
    {
      var txFamilies, txTokens, txAudit := families, tokens, audit;
      var user := FindByEmail(users, input.tenantId, input.email);
      r := Invalid;
      if input.tenantId in tenants && user.Some? && user.value.passwordHash == Some(input.expectedPasswordHash) {
        var inactive := InactiveReason(tenants[input.tenantId], user.value.active);
        if inactive.Some? {
          txAudit := txAudit
            + [Audit(LoginDenied(inactive.value), input.tenantId, user.value.id, input.requestId, None)];
          r := Denied(inactive.value);
        } else {
          var root := Token(input.tokenId, input.tenantId, input.familyId, None, input.tokenDigest, input.csrfDigest,
                            timestamp + IDLE_LIFETIME, false);
          r := Unavailable;
          if input.familyId !in txFamilies && Insertable(txTokens, root) {
            txFamilies := txFamilies[input.familyId :=
              Family(input.tenantId, user.value.id, timestamp + ABSOLUTE_LIFETIME, None)];
            txTokens := txTokens + [root];
            txAudit := txAudit + [Audit(LoginSucceeded, input.tenantId, user.value.id, input.requestId, None)];
            r := Issued;
          }
        }
      }
      r := Finish(txFamilies, txTokens, txAudit, r, fault);
    }
  }

  // ---------------------------------------------------------------- the invariant

  /** The positions of a family's tokens, oldest first. */
  function Positions(tokens: seq<Token>, familyId: string): seq<nat> {
    if tokens == [] then [] else
    var n := |tokens| - 1;
    Positions(tokens[..n], familyId) + (if tokens[n].familyId == familyId then [n] else [])
  }

  /** Token k of a chain is a root exactly when first, points at its predecessor, and is used unless last. */
  ghost predicate LinkAt(tokens: seq<Token>, tenantId: string, absolute: int, chain: seq<nat>, k: nat)
    requires k < |chain|
  {
    && chain[k] < |tokens| && (k > 0 ==> chain[k - 1] < |tokens|)
    && var token := tokens[chain[k]];
       && token.parent == (if k == 0 then None else Some(tokens[chain[k - 1]].id))
       && (token.used <==> k < |chain| - 1)
       && token.idle <= absolute
       && token.tenantId == tenantId
  }

  /** The tokens of a family are one parent chain: only the first is a root, only the last is unused. */
  ghost predicate LinearChain(tokens: seq<Token>, familyId: string, tenantId: string, absolute: int) {
    var chain := Positions(tokens, familyId);
    chain != [] && forall k | 0 <= k < |chain| :: LinkAt(tokens, tenantId, absolute, chain, k)
  }

  ghost predicate Chained(tokens: seq<Token>, families: map<string, Family>) {
    forall f {:trigger LinearChain(tokens, f, families[f].tenantId, families[f].absolute)} | f in families ::
      LinearChain(tokens, f, families[f].tenantId, families[f].absolute)
  }

  ghost predicate UniqueTokens(tokens: seq<Token>) {
    forall i, j | 0 <= i < j < |tokens| :: tokens[i].id != tokens[j].id && tokens[i].digest != tokens[j].digest
  }

  function RowsOf(audit: seq<Audit>, familyId: string): seq<Audit> {
    if audit == [] then [] else
    var n := |audit| - 1;
    RowsOf(audit[..n], familyId) + (if audit[n].family == Some(familyId) then [audit[n]] else [])
  }

  function ActionOf(revocation: Revocation): Action
    requires !revocation.ByAdministration?
  {
    match revocation
    case ByReuse => RefreshReuseDetected
    case ByInactivity(reason) => LoginDenied(reason)
    case ByLogout => LogoutSucceeded
  }

  /** A family revoked by refresh or logout has exactly one audit row, which says why; others have none. */
  ghost predicate AuditedOnce(db: Db, familyId: string) {
    var rows := RowsOf(db.audit, familyId);
    if familyId !in db.families || db.families[familyId].revoked.None?
      || db.families[familyId].revoked.value.ByAdministration?
    then rows == []
    else
      var family := db.families[familyId];
      && |rows| == 1 && rows[0].action == ActionOf(family.revoked.value)
      && rows[0].tenantId == family.tenantId && rows[0].userId == family.userId
  }

  ghost predicate TokensChained(tokens: seq<Token>, families: map<string, Family>) {
    && UniqueTokens(tokens)
    && (forall i | 0 <= i < |tokens| :: tokens[i].familyId in families)
    && Chained(tokens, families)
  }

  ghost predicate Inv(db: Db) {
    && TokensChained(db.tokens, db.families)
    && (forall familyId :: AuditedOnce(db, familyId))
  }

  lemma {:induction false} PositionAt(tokens: seq<Token>, familyId: string, k: nat)
    requires k < |Positions(tokens, familyId)|
    ensures Positions(tokens, familyId)[k] < |tokens|
    ensures tokens[Positions(tokens, familyId)[k]].familyId == familyId
  {
    if k < |Positions(tokens[..|tokens| - 1], familyId)| {
      PositionAt(tokens[..|tokens| - 1], familyId, k);
    }
  }

  lemma {:induction false} PositionsAscend(tokens: seq<Token>, familyId: string, k: nat, l: nat)
    requires k < l < |Positions(tokens, familyId)|
    ensures Positions(tokens, familyId)[k] < Positions(tokens, familyId)[l]
  {
    var before := Positions(tokens[..|tokens| - 1], familyId);
    if l < |before| {
      PositionsAscend(tokens[..|tokens| - 1], familyId, k, l);
    } else {
      PositionAt(tokens[..|tokens| - 1], familyId, k);
    }
  }

  lemma {:induction false} PositionOf(tokens: seq<Token>, i: nat) returns (k: nat)
    requires i < |tokens|
    ensures k < |Positions(tokens, tokens[i].familyId)| && Positions(tokens, tokens[i].familyId)[k] == i
  {
    var n := |tokens| - 1;
    if i < n {
      k := PositionOf(tokens[..n], i);
    } else {
      k := |Positions(tokens[..n], tokens[i].familyId)|;
    }
  }

  lemma PositionsSnoc(tokens: seq<Token>, token: Token, familyId: string)
    ensures Positions(tokens + [token], familyId) ==
            Positions(tokens, familyId) + (if token.familyId == familyId then [|tokens|] else [])
  {
    assert (tokens + [token])[..|tokens|] == tokens;
  }

  lemma {:induction false} PositionsUpdate(tokens: seq<Token>, i: nat, token: Token, familyId: string)
    requires i < |tokens| && token.familyId == tokens[i].familyId
    ensures Positions(tokens[i := token], familyId) == Positions(tokens, familyId)
  {
    var n := |tokens| - 1;
    if i < n {
      PositionsUpdate(tokens[..n], i, token, familyId);
      assert tokens[i := token][..n] == tokens[..n][i := token];
    } else {
      assert tokens[i := token][..n] == tokens[..n];
    }
  }

  lemma RowsOfSnoc(audit: seq<Audit>, row: Audit, familyId: string)
    ensures RowsOf(audit + [row], familyId)
            == RowsOf(audit, familyId) + (if row.family == Some(familyId) then [row] else [])
  {
    assert (audit + [row])[..|audit|] == audit;
  }

  /** With unique digests a row is found exactly for a token of the family. */
  lemma {:induction false} MatchesUnique(tokens: seq<Token>, familyId: string, i: nat)
    requires UniqueTokens(tokens) && i < |tokens| && tokens[i].familyId == familyId
    ensures Matches(tokens, familyId, tokens[i].digest) == [i]
  {
    var n := |tokens| - 1;
    if i < n {
      MatchesUnique(tokens[..n], familyId, i);
    } else {
      MatchesNone(tokens[..n], familyId, tokens[i].digest);
    }
  }

  lemma {:induction false} MatchesNone(tokens: seq<Token>, familyId: string, digest: Digest)
    requires forall i | 0 <= i < |tokens| :: tokens[i].digest != digest
    ensures Matches(tokens, familyId, digest) == []
  {
    if tokens != [] {
      MatchesNone(tokens[..|tokens| - 1], familyId, digest);
    }
  }

  // ---------------------------------------------------------------- what a step keeps

  lemma RevokeKeepsInv(db: Db, familyId: string, revocation: Revocation, requestId: string)
    requires Inv(db) && familyId in db.families && db.families[familyId].revoked.None?
    requires !revocation.ByAdministration?
    ensures Inv(Revoke(db, familyId, revocation, ActionOf(revocation), requestId))
  {
    var db' := Revoke(db, familyId, revocation, ActionOf(revocation), requestId);
    forall f
      ensures AuditedOnce(db', f)
    {
      assert AuditedOnce(db, f);
      RowsOfSnoc(db.audit, db'.audit[|db.audit|], f);
    }
  }

  /** Appending a token keeps ids and digests unique when it may be inserted. */
  lemma InsertKeepsUnique(tokens: seq<Token>, token: Token)
    requires UniqueTokens(tokens) && Insertable(tokens, token)
    ensures UniqueTokens(tokens + [token])
  {
    forall i, j | 0 <= i < j < |tokens + [token]|
      ensures (tokens + [token])[i].id != (tokens + [token])[j].id
      ensures (tokens + [token])[i].digest != (tokens + [token])[j].digest
    {
      assert tokens[i] in tokens;
    }
  }

  /** The place of a token in its family's chain. */
  lemma ChainLink(tokens: seq<Token>, families: map<string, Family>, i: nat) returns (k: nat)
    requires Chained(tokens, families) && i < |tokens| && tokens[i].familyId in families
    ensures var f := tokens[i].familyId;
            && k < |Positions(tokens, f)| && Positions(tokens, f)[k] == i
            && LinkAt(tokens, families[f].tenantId, families[f].absolute, Positions(tokens, f), k)
  {
    var f := tokens[i].familyId;
    k := PositionOf(tokens, i);
    assert LinearChain(tokens, f, families[f].tenantId, families[f].absolute);
  }

  lemma LinkOf(tokens: seq<Token>, families: map<string, Family>, f: string, k: nat)
    requires Chained(tokens, families) && f in families && k < |Positions(tokens, f)|
    ensures LinkAt(tokens, families[f].tenantId, families[f].absolute, Positions(tokens, f), k)
    ensures tokens[Positions(tokens, f)[k]].familyId == f
  {
    assert LinearChain(tokens, f, families[f].tenantId, families[f].absolute);
    PositionAt(tokens, f, k);
  }

  lemma UnusedIsLast(tokens: seq<Token>, families: map<string, Family>, i: nat)
    requires Chained(tokens, families) && i < |tokens| && tokens[i].familyId in families && !tokens[i].used
    ensures var chain := Positions(tokens, tokens[i].familyId); chain != [] && chain[|chain| - 1] == i
  {
    var k := ChainLink(tokens, families, i);
  }

  /** Marking the tail used and appending a child pointing at it extends the chain by one. */
  lemma RotationExtendsChain(tokens: seq<Token>, f: string, absolute: int, i: nat, child: Token)
    requires LinearChain(tokens, f, child.tenantId, absolute)
    requires i < |tokens| && tokens[i].familyId == f && Positions(tokens, f)[|Positions(tokens, f)| - 1] == i
    requires child.familyId == f && child.parent == Some(tokens[i].id) && !child.used && child.idle <= absolute
    ensures LinearChain(tokens[i := tokens[i].(used := true)] + [child], f, child.tenantId, absolute)
  {
    var marked := tokens[i := tokens[i].(used := true)];
    PositionsUpdate(tokens, i, tokens[i].(used := true), f);
    PositionsSnoc(marked, child, f);
    var chain := Positions(tokens, f);
    forall k | 0 <= k < |chain + [|marked|]|
      ensures LinkAt(marked + [child], child.tenantId, absolute, chain + [|marked|], k)
    {
      assert LinkAt(tokens, child.tenantId, absolute, chain, if k < |chain| then k else |chain| - 1);
      if k < |chain| - 1 {
        PositionsAscend(tokens, f, k, |chain| - 1);
      }
    }
  }

  /** A family's chain does not depend on the other families' tokens. */
  lemma OtherChainKept(tokens: seq<Token>, tokens': seq<Token>, f: string, tenantId: string, absolute: int)
    requires LinearChain(tokens, f, tenantId, absolute)
    requires |tokens'| == |tokens| + 1 && tokens'[|tokens|].familyId != f
    requires forall k | 0 <= k < |tokens| ::
               tokens'[k].familyId == tokens[k].familyId && (tokens[k].familyId == f ==> tokens'[k] == tokens[k])
    ensures LinearChain(tokens', f, tenantId, absolute)
  {
    PositionsSame(tokens, tokens'[..|tokens|], f);
    PositionsSnoc(tokens'[..|tokens|], tokens'[|tokens|], f);
    assert tokens' == tokens'[..|tokens|] + [tokens'[|tokens|]];
    var chain := Positions(tokens, f);
    forall k | 0 <= k < |chain|
      ensures LinkAt(tokens', tenantId, absolute, chain, k)
    {
      assert LinkAt(tokens, tenantId, absolute, chain, k);
      PositionAt(tokens, f, k);
      if k > 0 {
        PositionAt(tokens, f, k - 1);
      }
    }
    assert Positions(tokens', f) == chain;
  }

  lemma {:induction false} PositionsSame(tokens: seq<Token>, tokens': seq<Token>, f: string)
    requires |tokens'| == |tokens|
    requires forall k | 0 <= k < |tokens| :: tokens'[k].familyId == tokens[k].familyId
    ensures Positions(tokens', f) == Positions(tokens, f)
  {
    if tokens != [] {
      PositionsSame(tokens[..|tokens| - 1], tokens'[..|tokens| - 1], f);
    }
  }

  lemma RotationKeepsInv(db: Db, i: nat, child: Token)
    requires Inv(db) && i < |db.tokens| && !db.tokens[i].used
    requires child.familyId == db.tokens[i].familyId && child.parent == Some(db.tokens[i].id) && !child.used
    requires child.familyId in db.families
    requires child.tenantId == db.families[child.familyId].tenantId
             && child.idle <= db.families[child.familyId].absolute
    requires Insertable(db.tokens[i := db.tokens[i].(used := true)], child)
    ensures Inv(db.(tokens := db.tokens[i := db.tokens[i].(used := true)] + [child]))
  {
    var marked := db.tokens[i := db.tokens[i].(used := true)];
    var db' := db.(tokens := marked + [child]);
    UnusedIsLast(db.tokens, db.families, i);
    InsertKeepsUnique(marked, child);
    forall f | f in db'.families
      ensures LinearChain(db'.tokens, f, db'.families[f].tenantId, db'.families[f].absolute)
    {
      if f == child.familyId {
        RotationExtendsChain(db.tokens, f, db.families[f].absolute, i, child);
      } else {
        OtherChainKept(db.tokens, db'.tokens, f, db.families[f].tenantId, db.families[f].absolute);
      }
    }
    assert forall f :: AuditedOnce(db', f) == AuditedOnce(db, f);
  }

  /** A new root makes a chain of one and leaves the others alone. */
  lemma RootKeepsChains(db: Db, familyId: string, family: Family, root: Token)
    requires Inv(db) && familyId !in db.families
    requires root.familyId == familyId && root.parent.None? && !root.used
    requires root.tenantId == family.tenantId && root.idle <= family.absolute
    ensures Chained(db.tokens + [root], db.families[familyId := family])
  {
    PositionsSnoc(db.tokens, root, familyId);
    if Positions(db.tokens, familyId) != [] {
      PositionAt(db.tokens, familyId, 0);
      assert false;
    }
    assert LinkAt(db.tokens + [root], family.tenantId, family.absolute, [|db.tokens|], 0);
    forall f | f in db.families
      ensures LinearChain(db.tokens + [root], f, db.families[f].tenantId, db.families[f].absolute)
    {
      OtherChainKept(db.tokens, db.tokens + [root], f, db.families[f].tenantId, db.families[f].absolute);
    }
  }

  /** A row that belongs to no family's change, or a fresh unrevoked family, keeps the audit counts. */
  lemma UnattributedKeepsAudit(db: Db, db': Db, row: Audit)
    requires forall f :: AuditedOnce(db, f)
    requires db'.audit == db.audit + [row] && row.family.None?
    requires forall f | f in db.families :: f in db'.families && db'.families[f] == db.families[f]
    requires forall f | f in db'.families && f !in db.families :: db'.families[f].revoked.None?
    ensures forall f :: AuditedOnce(db', f)
  {
    forall f
      ensures AuditedOnce(db', f)
    {
      assert AuditedOnce(db, f);
      RowsOfSnoc(db.audit, row, f);
    }
  }

  lemma LoginKeepsInv(db: Db, input: LoginInput, timestamp: int)
    requires Inv(db)
    ensures Inv(LoginEffect(db, input, timestamp).1)
  {
    var (result, db') := LoginEffect(db, input, timestamp);
    if db' != db {
      UnattributedKeepsAudit(db, db', db'.audit[|db.audit|]);
      if result == Issued {
        var root := db'.tokens[|db.tokens|];
        InsertKeepsUnique(db.tokens, root);
        RootKeepsChains(db, input.familyId, db'.families[input.familyId], root);
      }
    }
  }

  lemma RefreshKeepsInv(db: Db, input: RefreshInput, timestamp: int)
    requires Inv(db)
    ensures Inv(RefreshEffect(db, input, timestamp).1)
  {
    var (result, db') := RefreshEffect(db, input, timestamp);
    if db' != db {
      var row := ReadRow(db, input.familyId, input.presentedDigest).value;
      var i := MatchInRange(db.tokens, input.familyId, input.presentedDigest, row.token);
      var inactive := InactiveReason(row.tenantActive, row.userActive);
      if inactive.Some? {
        RevokeKeepsInv(db, input.familyId, ByInactivity(inactive.value), input.requestId);
      } else if db.tokens[i].used {
        RevokeKeepsInv(db, input.familyId, ByReuse, input.requestId);
      } else {
        var k := ChainLink(db.tokens, db.families, i);
        RotationKeepsInv(db, i, Child(db, input, db.tokens[i], timestamp));
      }
    }
  }

  lemma LogoutKeepsInv(db: Db, input: LogoutInput)
    requires Inv(db)
    ensures Inv(LogoutEffect(db, input).1)
  {
    if LogoutEffect(db, input).1 != db {
      RevokeKeepsInv(db, input.familyId, ByLogout, input.requestId);
    }
  }

  // ---------------------------------------------------------------- runs

  /**
   * One atomic step of the system. Administer covers every change to tenants and users, together
   * with the revocation of one user's live families that some of those changes carry.
   */
  datatype Event =
    | Login(login: LoginInput, at: int, fault: Fault)
    | Refresh(refresh: RefreshInput, at: int, fault: Fault)
    | Logout(logout: LogoutInput, fault: Fault)
    | Administer(tenants: map<string, bool>, users: seq<User>, revoked: Option<(string, string)>)

  function StepDb(db: Db, event: Event): Db {
    match event
    case Login(input, at, fault) => if fault.Aborts? then db else LoginEffect(db, input, at).1
    case Refresh(input, at, fault) => if fault.Aborts? then db else RefreshEffect(db, input, at).1
    case Logout(input, fault) => if fault.Aborts? then db else LogoutEffect(db, input).1
    case Administer(tenants, users, revoked) =>
      db.(tenants := tenants, users := users,
          families := if revoked.None? then db.families
                      else RevokeUserFamilies(db.families, revoked.value.0, revoked.value.1))
  }

  function Run(db: Db, events: seq<Event>): Db {
    if events == [] then db else StepDb(Run(db, events[..|events| - 1]), events[|events| - 1])
  }

  ghost predicate Initial(db: Db) {
    db.families == map[] && db.tokens == [] && db.audit == []
  }

  lemma AdministerKeepsInv(db: Db, event: Event)
    requires Inv(db) && event.Administer?
    ensures Inv(StepDb(db, event))
  {
    var db' := StepDb(db, event);
    forall f
      ensures AuditedOnce(db', f)
    {
      assert AuditedOnce(db, f);
    }
    forall f | f in db'.families
      ensures LinearChain(db'.tokens, f, db'.families[f].tenantId, db'.families[f].absolute)
    {
      assert LinearChain(db.tokens, f, db.families[f].tenantId, db.families[f].absolute);
    }
  }

  lemma StepKeepsInv(db: Db, event: Event)
    requires Inv(db)
    ensures Inv(StepDb(db, event))
  {
    match event
    case Login(input, at, _) => LoginKeepsInv(db, input, at);
    case Refresh(input, at, _) => RefreshKeepsInv(db, input, at);
    case Logout(input, _) => LogoutKeepsInv(db, input);
    case Administer(_, _, _) => AdministerKeepsInv(db, event);
  }

  /** In every reachable state tokens form linear chains and revocations are audited once. */
  lemma {:induction false} RunKeepsInv(db: Db, events: seq<Event>)
    requires Inv(db) || Initial(db)
    ensures Inv(Run(db, events))
  {
    if events != [] {
      RunKeepsInv(db, events[..|events| - 1]);
      StepKeepsInv(Run(db, events[..|events| - 1]), events[|events| - 1]);
    }
  }

  lemma SameToken(tokens: seq<Token>, i: nat, j: nat)
    requires UniqueTokens(tokens) && i < |tokens| && j < |tokens|
    requires tokens[i].id == tokens[j].id || tokens[i].digest == tokens[j].digest
    ensures i == j
  {
  }

  /** Every used token has a child: the next token of its chain. */
  lemma UsedTokenHasChild(tokens: seq<Token>, families: map<string, Family>, i: nat) returns (j: nat)
    requires TokensChained(tokens, families) && i < |tokens| && tokens[i].used
    ensures j < |tokens| && tokens[j].parent == Some(tokens[i].id)
    ensures tokens[j].familyId == tokens[i].familyId
  {
    var f := tokens[i].familyId;
    var k := ChainLink(tokens, families, i);
    LinkOf(tokens, families, f, k + 1);
    j := Positions(tokens, f)[k + 1];
  }

  /** A child is in its parent's family, right after it, and its parent is used. */
  lemma ChildFollows(tokens: seq<Token>, families: map<string, Family>, i: nat, j: nat) returns (l: nat)
    requires TokensChained(tokens, families) && i < |tokens| && j < |tokens|
    requires tokens[j].parent == Some(tokens[i].id)
    ensures tokens[j].familyId == tokens[i].familyId && tokens[i].used
    ensures l + 1 < |Positions(tokens, tokens[i].familyId)|
    ensures Positions(tokens, tokens[i].familyId)[l + 1] == j
    ensures Positions(tokens, tokens[i].familyId)[l] == i
  {
    var f := tokens[j].familyId;
    var k := ChainLink(tokens, families, j);
    l := k - 1;
    LinkOf(tokens, families, f, l);
    SameToken(tokens, Positions(tokens, f)[l], i);
  }

  /** No token has two children; with the two lemmas above, exactly the used tokens have one. */
  lemma OneChildPerToken(tokens: seq<Token>, families: map<string, Family>, i: nat, j: nat, j': nat)
    requires TokensChained(tokens, families) && i < |tokens| && j < |tokens| && j' < |tokens|
    requires tokens[j].parent == Some(tokens[i].id) == tokens[j'].parent
    ensures j == j'
  {
    var l := ChildFollows(tokens, families, i, j);
    var l' := ChildFollows(tokens, families, i, j');
    PositionsDistinct(tokens, tokens[i].familyId, l, l');
  }

  lemma PositionsDistinct(tokens: seq<Token>, f: string, k: nat, l: nat)
    requires k < |Positions(tokens, f)| && l < |Positions(tokens, f)|
    requires Positions(tokens, f)[k] == Positions(tokens, f)[l]
    ensures k == l
  {
    if k < l { PositionsAscend(tokens, f, k, l); }
    if l < k { PositionsAscend(tokens, f, l, k); }
  }

  // ---------------------------------------------------------------- what never changes back

  /** Tokens keep their identity and stay used; families keep theirs and stay revoked, with no new token. */
  ghost predicate Extends(db: Db, db': Db) {
    && |db.tokens| <= |db'.tokens|
    && (forall i | 0 <= i < |db.tokens| ::
          && db'.tokens[i] == db.tokens[i].(used := db'.tokens[i].used)
          && (db.tokens[i].used ==> db'.tokens[i].used))
    && (forall f | f in db.families ::
          && f in db'.families
          && db'.families[f] == db.families[f].(revoked := db'.families[f].revoked))
    && (forall f | f in db.families && db.families[f].revoked.Some? ::
          && db'.families[f].revoked == db.families[f].revoked
          && forall i | |db.tokens| <= i < |db'.tokens| :: db'.tokens[i].familyId != f)
  }

  lemma StepExtends(db: Db, event: Event)
    ensures Extends(db, StepDb(db, event))
  {
    match event
    case Login(input, at, _) =>
    case Refresh(input, at, _) => RefreshExtends(db, input, at);
    case Logout(input, _) =>
    case Administer(_, _, _) =>
  }

  lemma RefreshExtends(db: Db, input: RefreshInput, timestamp: int)
    ensures Extends(db, RefreshEffect(db, input, timestamp).1)
  {
  }

  lemma ExtendsTransitive(a: Db, b: Db, c: Db)
    requires Extends(a, b) && Extends(b, c)
    ensures Extends(a, c)
  {
    forall i | 0 <= i < |a.tokens|
      ensures c.tokens[i] == a.tokens[i].(used := c.tokens[i].used) && (a.tokens[i].used ==> c.tokens[i].used)
    {
      assert b.tokens[i] == a.tokens[i].(used := b.tokens[i].used);
    }
    forall f, i | f in a.families && a.families[f].revoked.Some? && |a.tokens| <= i < |c.tokens|
      ensures c.tokens[i].familyId != f
    {
      if i < |b.tokens| {
        assert b.tokens[i].familyId != f;
      }
    }
  }

  /** Over any run: revocation is permanent, a revoked family gains no token, a used token stays used. */
  lemma {:induction false} RunExtends(db: Db, events: seq<Event>)
    ensures Extends(db, Run(db, events))
  {
    if events != [] {
      var before := Run(db, events[..|events| - 1]);
      RunExtends(db, events[..|events| - 1]);
      StepExtends(before, events[|events| - 1]);
      ExtendsTransitive(db, before, StepDb(before, events[|events| - 1]));
    }
  }

  // ---------------------------------------------------------------- refresh, seen by its callers

  /** Position i holds the one token of the presented family with the presented digest. */
  ghost predicate Presented(db: Db, input: RefreshInput, i: nat) {
    i < |db.tokens| && db.tokens[i].familyId == input.familyId && db.tokens[i].digest == input.presentedDigest
  }

  ghost predicate OwnerActive(db: Db, familyId: string)
    requires familyId in db.families
  {
    var family := db.families[familyId];
    && family.tenantId in db.tenants && db.tenants[family.tenantId]
    && FindUser(db.users, family.tenantId, family.userId).Some?
    && FindUser(db.users, family.tenantId, family.userId).value.active
  }

  lemma PresentedRow(db: Db, input: RefreshInput, i: nat)
    requires Inv(db) && Presented(db, input, i)
    ensures Matches(db.tokens, input.familyId, input.presentedDigest) == [i]
    ensures input.familyId in db.families
  {
    MatchesUnique(db.tokens, input.familyId, i);
  }

  lemma InsertableAfterMark(tokens: seq<Token>, i: nat, child: Token)
    requires i < |tokens|
    ensures Insertable(tokens[i := tokens[i].(used := true)], child) <==> Insertable(tokens, child)
  {
    var marked := tokens[i := tokens[i].(used := true)];
    if Insertable(tokens, child) {
      forall t | t in marked
        ensures t.id != child.id && t.digest != child.digest
      {
        var k :| 0 <= k < |marked| && marked[k] == t;
        assert tokens[k] in tokens;
      }
    }
    if Insertable(marked, child) {
      forall t | t in tokens
        ensures t.id != child.id && t.digest != child.digest
      {
        var k :| 0 <= k < |tokens| && tokens[k] == t;
        assert marked[k] in marked;
      }
    }
  }

  /** Exactly when a presented token is exchanged for a child. */
  lemma RefreshIssuesIff(db: Db, input: RefreshInput, timestamp: int, i: nat)
    requires Inv(db) && Presented(db, input, i)
    ensures RefreshEffect(db, input, timestamp).0 == Issued <==>
            && db.tokens[i].csrf == input.presentedCsrf
            && db.families[input.familyId].revoked.None? && OwnerActive(db, input.familyId)
            && !db.tokens[i].used
            && timestamp < db.tokens[i].idle && timestamp < db.families[input.familyId].absolute
            && forall token | token in db.tokens :: token.id != input.childId && token.digest != input.childDigest
  {
    PresentedRow(db, input, i);
    InsertableAfterMark(db.tokens, i, Child(db, input, db.tokens[i], timestamp));
    IssuesWhenOpen(db, input, timestamp, i);
  }

  lemma IssuesWhenOpen(db: Db, input: RefreshInput, timestamp: int, i: nat)
    requires Matches(db.tokens, input.familyId, input.presentedDigest) == [i]
    requires i < |db.tokens| && input.familyId in db.families
    ensures RefreshEffect(db, input, timestamp).0 == Issued <==>
            && db.tokens[i].csrf == input.presentedCsrf
            && db.families[input.familyId].revoked.None? && OwnerActive(db, input.familyId)
            && !db.tokens[i].used
            && timestamp < db.tokens[i].idle && timestamp < db.families[input.familyId].absolute
            && Insertable(db.tokens[i := db.tokens[i].(used := true)], Child(db, input, db.tokens[i], timestamp))
  {
  }

  /** A committed refresh that issues marks the presented token used and appends its only child. */
  lemma IssuedMarksUsed(db: Db, input: RefreshInput, timestamp: int, i: nat)
    requires Inv(db) && Presented(db, input, i)
    requires RefreshEffect(db, input, timestamp).0 == Issued
    ensures var db' := RefreshEffect(db, input, timestamp).1;
            && db'.tokens[i] == db.tokens[i].(used := true)
            && |db'.tokens| == |db.tokens| + 1
            && var child := db'.tokens[|db.tokens|];
               && child.id == input.childId && child.parent == Some(db.tokens[i].id) && !child.used
               && child.idle == Min(timestamp + IDLE_LIFETIME, db.families[input.familyId].absolute)
  {
    PresentedRow(db, input, i);
  }

  /** Presenting a used token with its CSRF digest, family live and owner active, revokes the family. */
  lemma ReuseRevokes(db: Db, input: RefreshInput, timestamp: int, i: nat)
    requires Inv(db) && Presented(db, input, i)
    requires db.tokens[i].used && db.tokens[i].csrf == input.presentedCsrf
    requires db.families[input.familyId].revoked.None? && OwnerActive(db, input.familyId)
    ensures var (result, db') := RefreshEffect(db, input, timestamp);
            && result == Invalid
            && db'.families[input.familyId].revoked == Some(ByReuse)
            && db'.tokens == db.tokens
            && RowsOf(db'.audit, input.familyId) ==
               [Audit(RefreshReuseDetected, db.families[input.familyId].tenantId, db.families[input.familyId].userId,
                      input.requestId, Some(input.familyId))]
  {
    PresentedRow(db, input, i);
    assert AuditedOnce(db, input.familyId);
    var db' := RefreshEffect(db, input, timestamp).1;
    RowsOfSnoc(db.audit, db'.audit[|db.audit|], input.familyId);
  }

  ghost predicate Issues(db: Db, event: Event, digest: Digest) {
    && event.Refresh? && event.refresh.presentedDigest == digest && !event.fault.Aborts?
    && RefreshEffect(db, event.refresh, event.at).0 == Issued
  }

  lemma IssuerPresents(db: Db, input: RefreshInput, timestamp: int) returns (i: nat)
    requires RefreshEffect(db, input, timestamp).0 == Issued
    ensures Presented(db, input, i)
  {
    var row := ReadRow(db, input.familyId, input.presentedDigest).value;
    i := MatchInRange(db.tokens, input.familyId, input.presentedDigest, row.token);
  }

  /** Once a refresh has issued on a token, the token is used in every later state. */
  lemma IssuedStaysUsed(db: Db, input: RefreshInput, at: int, later: seq<Event>) returns (i: nat)
    requires Inv(db) && RefreshEffect(db, input, at).0 == Issued
    ensures var db' := Run(RefreshEffect(db, input, at).1, later);
            i < |db'.tokens| && db'.tokens[i].used && db'.tokens[i].digest == input.presentedDigest
  {
    i := IssuerPresents(db, input, at);
    IssuedMarksUsed(db, input, at, i);
    RunExtends(RefreshEffect(db, input, at).1, later);
  }

  lemma UsedIsNotIssued(db: Db, event: Event, i: nat)
    requires Inv(db) && i < |db.tokens| && db.tokens[i].used
    ensures !Issues(db, event, db.tokens[i].digest)
  {
    if Issues(db, event, db.tokens[i].digest) {
      var j := IssuerPresents(db, event.refresh, event.at);
      SameToken(db.tokens, i, j);
      RefreshIssuesIff(db, event.refresh, event.at, j);
    }
  }

  /** However many refreshes race on one token, whatever family each looked up, at most one is issued. */
  lemma AtMostOneIssue(db: Db, events: seq<Event>, p: nat, q: nat, digest: Digest)
    requires Inv(db) || Initial(db)
    requires p < q < |events|
    requires Issues(Run(db, events[..p]), events[p], digest)
    ensures !Issues(Run(db, events[..q]), events[q], digest)
  {
    RunKeepsInv(db, events[..p]);
    RunKeepsInv(db, events[..q]);
    assert events[..p + 1][..p] == events[..p] && events[..q][..p + 1] == events[..p + 1];
    RunSplit(db, events[..q], p + 1);
    var i := IssuedStaysUsed(Run(db, events[..p]), events[p].refresh, events[p].at, events[..q][p + 1..]);
    UsedIsNotIssued(Run(db, events[..q]), events[q], i);
  }

  lemma {:induction false} RunSplit(db: Db, events: seq<Event>, n: nat)
    requires n <= |events|
    ensures Run(db, events) == Run(Run(db, events[..n]), events[n..])
  {
    if n < |events| {
      var last := |events| - 1;
      RunSplit(db, events[..last], n);
      assert events[..last][..n] == events[..n] && events[n..][..last - n] == events[..last][n..];
    } else {
      assert events[..n] == events && events[n..] == [];
    }
  }

  /** The family looked up before the lock is still the token's family when the transaction runs. */
  lemma FoundFamilyStaysRight(db: Db, events: seq<Event>, digest: Digest)
    requires Inv(db) && FindFamilyId(db.tokens, digest).Some?
    ensures FindFamilyId(Run(db, events).tokens, digest) == FindFamilyId(db.tokens, digest)
  {
    RunExtends(db, events);
    RunKeepsInv(db, events);
    var db' := Run(db, events);
    var i := FoundToken(db.tokens, digest);
    FindFamilyOf(db'.tokens, i);
  }

  lemma {:induction false} FoundToken(tokens: seq<Token>, digest: Digest) returns (i: nat)
    requires FindFamilyId(tokens, digest).Some?
    ensures i < |tokens| && tokens[i].digest == digest && FindFamilyId(tokens, digest) == Some(tokens[i].familyId)
  {
    i := |tokens| - 1;
    if tokens[i].digest != digest {
      i := FoundToken(tokens[..i], digest);
    }
  }

  lemma {:induction false} FindFamilyOf(tokens: seq<Token>, i: nat)
    requires UniqueTokens(tokens) && i < |tokens|
    ensures FindFamilyId(tokens, tokens[i].digest) == Some(tokens[i].familyId)
  {
    if i < |tokens| - 1 {
      FindFamilyOf(tokens[..|tokens| - 1], i);
    }
  }
}
