/**
 * The migration ledger: discovery of a plan (core/db/sql-plan.ts), its validation against the
 * applied rows (core/db/sql-plan-validation.ts), and the run that applies one file per
 * transaction (core/db/sql-runner.ts).
 */
module SqlPlan {
  import opened Common
  import opened Decimal
  import opened Sorting

  datatype Digest = Sha256(content: string)

  datatype SqlFile = SqlFile(version: string, filename: string, checksum: Digest, sql: string)

  datatype AppliedSqlFile = AppliedSqlFile(version: string, filename: string, checksum: Digest)

  datatype Result<T, E> = Ok(value: T) | Err(error: E)

  // ---------------------------------------------------------------- discovery

  datatype Entry = Entry(name: string, isFile: bool, content: string)

  datatype PlanError = Malformed | NoFiles | Duplicate

  function DigitPrefix(name: string): (digits: string)
    ensures digits <= name && forall c | c in digits :: IsDigit(c)
  {
    if name == "" || !IsDigit(name[0]) then "" else [name[0]] + DigitPrefix(name[1..])
  }

  const SQL := ".sql"

  predicate EndsWithSql(name: string) {
    |name| >= 4 && name[|name| - 4..] == SQL
  }

  predicate IsNameStart(c: char) {
    'a' <= c <= 'z' || IsDigit(c)
  }

  /** ^(\d{4,})_([a-z0-9][a-z0-9_-]*)\.sql$ */
  predicate WellNamed(name: string) {
    var n := |DigitPrefix(name)|;
    && n >= 4 && |name| >= n + 6 && name[n] == '_' && EndsWithSql(name)
    && IsNameStart(name[n + 1])
    && forall i | n + 2 <= i < |name| - 4 :: IsNameStart(name[i]) || name[i] == '_' || name[i] == '-'
  }

  function Load(entry: Entry): SqlFile {
    SqlFile(DigitPrefix(entry.name), entry.name, Sha256(entry.content), entry.content)
  }

  function SqlEntries(entries: seq<Entry>): seq<Entry> {
    if entries == [] then [] else
    (if entries[0].isFile && EndsWithSql(entries[0].name) then [entries[0]] else []) + SqlEntries(entries[1..])
  }

  function LoadAll(entries: seq<Entry>): (files: seq<SqlFile>)
    ensures |files| == |entries|
  {
    if entries == [] then [] else [Load(entries[0])] + LoadAll(entries[1..])
  }

  function Rank(file: SqlFile): int {
    if IsDigits(file.version) then Number(file.version) else 0
  }

  /** compareSqlFiles; files of equal version are refused before their order could matter. */
  predicate VersionLeq(left: SqlFile, right: SqlFile) {
    Rank(left) <= Rank(right)
  }

  ghost predicate Ascending(files: seq<SqlFile>) {
    forall i, j | 0 <= i < j < |files| :: Rank(files[i]) < Rank(files[j])
  }

  /** What discovery hands to the runner. */
  ghost predicate IsPlan(files: seq<SqlFile>) {
    && (forall i | 0 <= i < |files| ::
          && IsDigits(files[i].version)
          && files[i].version == DigitPrefix(files[i].filename)
          && files[i].checksum == Sha256(files[i].sql))
    && Ascending(files)
  }

  method ValidateUniqueVersions(files: seq<SqlFile>) returns (duplicate: bool)
    ensures duplicate <==> exists i | 1 <= i < |files| :: Rank(files[i - 1]) == Rank(files[i])
  {
    var index := 1;
    while index < |files|
      invariant forall i | 1 <= i < index && i < |files| :: Rank(files[i - 1]) != Rank(files[i])
    {
      if Rank(files[index - 1]) == Rank(files[index]) {
        return true;
      }
      index := index + 1;
    }
    return false;
  }

  /** On sorted files the adjacent check is enough. */
  lemma AdjacentIsGlobal(files: seq<SqlFile>)
    requires Sorted(files, VersionLeq)
    ensures (forall i | 1 <= i < |files| :: Rank(files[i - 1]) != Rank(files[i])) <==> Ascending(files)
    ensures Ascending(files) <==> DistinctKeys(files, Rank)
  {
    if forall i | 1 <= i < |files| :: Rank(files[i - 1]) != Rank(files[i]) {
      forall i, j | 0 <= i < j < |files|
        ensures Rank(files[i]) < Rank(files[j])
      {
        assert VersionLeq(files[i], files[i + 1]);
        assert i + 1 < j ==> VersionLeq(files[i + 1], files[j]);
        assert Rank(files[i + 1 - 1]) != Rank(files[i + 1]);
      }
    }
    if DistinctKeys(files, Rank) {
      forall i, j | 0 <= i < j < |files|
        ensures Rank(files[i]) < Rank(files[j])
      {
        assert VersionLeq(files[i], files[j]);
      }
    }
  }

  lemma {:induction false} LoadAllAt(entries: seq<Entry>, i: nat)
    requires i < |entries|
    ensures LoadAll(entries)[i] == Load(entries[i])
  {
    if i > 0 {
      LoadAllAt(entries[1..], i - 1);
    }
  }

  lemma LoadedPlan(entries: seq<Entry>, files: seq<SqlFile>)
    requires forall entry | entry in entries :: WellNamed(entry.name)
    requires multiset(files) == multiset(LoadAll(entries)) && Ascending(files)
    ensures IsPlan(files)
  {
    forall i | 0 <= i < |files|
      ensures IsDigits(files[i].version) && files[i].version == DigitPrefix(files[i].filename)
      ensures files[i].checksum == Sha256(files[i].sql)
    {
      assert files[i] in multiset(LoadAll(entries));
      var k :| 0 <= k < |entries| && LoadAll(entries)[k] == files[i];
      LoadAllAt(entries, k);
    }
  }

  /** discoverSqlFiles past the directory read. */
  method DiscoverSqlFiles(entries: seq<Entry>) returns (r: Result<seq<SqlFile>, PlanError>)
    ensures r.Ok? <==>
      && SqlEntries(entries) != []
      && (forall entry | entry in SqlEntries(entries) :: WellNamed(entry.name))
      && DistinctKeys(LoadAll(SqlEntries(entries)), Rank)
    ensures r.Ok? ==> IsPlan(r.value) && multiset(r.value) == multiset(LoadAll(SqlEntries(entries)))
  {
    var sql := SqlEntries(entries);
    if entry :| entry in sql && !WellNamed(entry.name) {
      return Err(Malformed);
    }
    if sql == [] {
      return Err(NoFiles);
    }
    var files := Sort(LoadAll(sql), VersionLeq);
    SortPermutes(LoadAll(sql), VersionLeq);
    SortSorts(LoadAll(sql), VersionLeq);
    AdjacentIsGlobal(files);
    var duplicate := ValidateUniqueVersions(files);
    if duplicate {
      ghost var distinct := DistinctKeys(LoadAll(sql), Rank);
      if distinct {
        DistinctKeysPermute(LoadAll(sql), files, Rank);
      }
      return Err(Duplicate);
    }
    DistinctKeysPermute(files, LoadAll(sql), Rank);
    LoadedPlan(sql, files);
    return Ok(files);
  }

  // ---------------------------------------------------------------- validation of the applied rows

  datatype Drift =
    | Missing(version: string)
    | FilenameDrift(version: string)
    | ChecksumDrift(version: string)
    | OutOfOrder(version: string)

  function Planned(files: seq<SqlFile>): map<string, SqlFile> {
    if files == [] then map[] else
    var last := files[|files| - 1];
    Planned(files[..|files| - 1])[last.version := last]
  }

  function AppliedByVersion(rows: seq<AppliedSqlFile>): map<string, AppliedSqlFile> {
    if rows == [] then map[] else
    var last := rows[|rows| - 1];
    AppliedByVersion(rows[..|rows| - 1])[last.version := last]
  }

  function RowDrift(planned: map<string, SqlFile>, row: AppliedSqlFile): Option<Drift> {
    if row.version !in planned then Some(Missing(row.version))
    else if planned[row.version].filename != row.filename then Some(FilenameDrift(row.version))
    else if planned[row.version].checksum != row.checksum then Some(ChecksumDrift(row.version))
    else None
  }

  function FirstDrift(planned: map<string, SqlFile>, rows: seq<AppliedSqlFile>): Option<Drift> {
    if rows == [] then None
    else if RowDrift(planned, rows[0]).Some? then RowDrift(planned, rows[0])
    else FirstDrift(planned, rows[1..])
  }

  /** BigInt reads the versions of the rows only once each is known to be in the plan. */
  function HighestVersion(rows: seq<AppliedSqlFile>): Option<nat>
    requires forall row | row in rows :: IsDigits(row.version)
  {
    if rows == [] then None else
    assert IsDigits(rows[|rows| - 1].version);
    var version := Number(rows[|rows| - 1].version);
    var highest := HighestVersion(rows[..|rows| - 1]);
    if highest.None? || version > highest.value then Some(version) else highest
  }

  function FirstOutOfOrder(files: seq<SqlFile>, applied: map<string, AppliedSqlFile>, highest: nat): Option<Drift>
    requires forall file | file in files :: IsDigits(file.version)
  {
    if files == [] then None else
    assert IsDigits(files[0].version);
    if files[0].version !in applied && Number(files[0].version) < highest then Some(OutOfOrder(files[0].version))
    else FirstOutOfOrder(files[1..], applied, highest)
  }

  lemma {:induction false} PlannedIsIn(files: seq<SqlFile>, version: string)
    ensures version in Planned(files) ==> Planned(files)[version] in files && Planned(files)[version].version == version
  {
    if files != [] {
      PlannedIsIn(files[..|files| - 1], version);
    }
  }

  lemma {:induction false} NoDriftMeans(planned: map<string, SqlFile>, rows: seq<AppliedSqlFile>)
    ensures FirstDrift(planned, rows).None? <==> forall row | row in rows :: RowDrift(planned, row).None?
  {
    if rows != [] {
      NoDriftMeans(planned, rows[1..]);
      assert rows == [rows[0]] + rows[1..];
    }
  }

  lemma NoDriftIsDigits(files: seq<SqlFile>, rows: seq<AppliedSqlFile>)
    requires IsPlan(files) && FirstDrift(Planned(files), rows).None?
    ensures forall row | row in rows :: IsDigits(row.version)
  {
    NoDriftMeans(Planned(files), rows);
    forall row | row in rows
      ensures IsDigits(row.version)
    {
      assert RowDrift(Planned(files), row).None?;
      PlannedIsIn(files, row.version);
    }
  }

  function ValidateAppliedPlan(files: seq<SqlFile>, rows: seq<AppliedSqlFile>)
    : Result<map<string, AppliedSqlFile>, Drift>
    requires IsPlan(files)
  {
    var applied := AppliedByVersion(rows);
    var drift := FirstDrift(Planned(files), rows);
    if drift.Some? then Err(drift.value) else
    NoDriftIsDigits(files, rows);
    var highest := HighestVersion(rows);
    if highest.None? then Ok(applied) else
    var misplaced := FirstOutOfOrder(files, applied, highest.value);
    if misplaced.Some? then Err(misplaced.value) else Ok(applied)
  }

  // ---------------------------------------------------------------- acceptance is being a prefix

  function Record(file: SqlFile): AppliedSqlFile {
    AppliedSqlFile(file.version, file.filename, file.checksum)
  }

  function Records(files: seq<SqlFile>): (rows: seq<AppliedSqlFile>)
    ensures |rows| == |files| && forall i | 0 <= i < |files| :: rows[i] == Record(files[i])
  {
    seq(|files|, i requires 0 <= i < |files| => Record(files[i]))
  }

  /** The rows, in whatever order, are those of these files. */
  ghost predicate SameRows(rows: seq<AppliedSqlFile>, files: seq<SqlFile>) {
    && (forall row | row in rows :: row in Records(files))
    && (forall i | 0 <= i < |files| :: Record(files[i]) in rows)
  }

  lemma {:induction false} PlannedAt(files: seq<SqlFile>, i: nat)
    requires i < |files|
    requires forall j, k | 0 <= j < k < |files| :: files[j].version != files[k].version
    ensures files[i].version in Planned(files) && Planned(files)[files[i].version] == files[i]
  {
    if i < |files| - 1 {
      PlannedAt(files[..|files| - 1], i);
    }
  }

  lemma VersionsDiffer(files: seq<SqlFile>)
    requires IsPlan(files)
    ensures forall j, k | 0 <= j < k < |files| :: files[j].version != files[k].version
  {
    forall j, k | 0 <= j < k < |files|
      ensures files[j].version != files[k].version
    {
      assert Rank(files[j]) < Rank(files[k]);
    }
  }

  /** A row has no drift exactly when it is the record of a planned file. */
  lemma RowMatches(files: seq<SqlFile>, row: AppliedSqlFile)
    requires IsPlan(files)
    ensures RowDrift(Planned(files), row).None? <==> row in Records(files)
  {
    VersionsDiffer(files);
    if RowDrift(Planned(files), row).None? {
      PlannedIsIn(files, row.version);
      var i :| 0 <= i < |files| && files[i] == Planned(files)[row.version];
      assert Records(files)[i] == row;
    }
    if row in Records(files) {
      var i :| 0 <= i < |files| && Records(files)[i] == row;
      PlannedAt(files, i);
    }
  }

  lemma {:induction false} AppliedKeys(rows: seq<AppliedSqlFile>, version: string)
    ensures version in AppliedByVersion(rows) <==> exists i | 0 <= i < |rows| :: rows[i].version == version
  {
    if rows != [] {
      AppliedKeys(rows[..|rows| - 1], version);
    }
  }

  lemma {:induction false} HighestIsMax(rows: seq<AppliedSqlFile>)
    requires forall row | row in rows :: IsDigits(row.version)
    ensures HighestVersion(rows).None? <==> rows == []
    ensures rows != [] ==>
      && (forall row | row in rows :: Number(row.version) <= HighestVersion(rows).value)
      && (exists i | 0 <= i < |rows| :: Number(rows[i].version) == HighestVersion(rows).value)
  {
    if |rows| > 1 {
      HighestIsMax(rows[..|rows| - 1]);
      assert rows == rows[..|rows| - 1] + [rows[|rows| - 1]];
    }
  }

  lemma {:induction false} InOrderMeans(files: seq<SqlFile>, applied: map<string, AppliedSqlFile>, highest: nat)
    requires forall file | file in files :: IsDigits(file.version)
    ensures FirstOutOfOrder(files, applied, highest).None? <==>
      forall file | file in files :: file.version in applied || Number(file.version) >= highest
  {
    if files != [] {
      InOrderMeans(files[1..], applied, highest);
      assert files == [files[0]] + files[1..];
    }
  }

  ghost predicate IsPrefixLedger(files: seq<SqlFile>, rows: seq<AppliedSqlFile>, k: nat) {
    k <= |files| && SameRows(rows, files[..k])
  }

  /** The plan's file for an accepted row. */
  lemma PlaceOf(files: seq<SqlFile>, rows: seq<AppliedSqlFile>, r: nat) returns (i: nat)
    requires IsPlan(files) && FirstDrift(Planned(files), rows).None? && r < |rows|
    ensures i < |files| && Record(files[i]) == rows[r]
  {
    NoDriftMeans(Planned(files), rows);
    assert rows[r] in rows;
    RowMatches(files, rows[r]);
    i :| 0 <= i < |files| && Records(files)[i] == rows[r];
  }

  lemma RankOrders(files: seq<SqlFile>, i: nat, j: nat)
    requires Ascending(files) && i < |files| && j < |files|
    ensures Rank(files[i]) <= Rank(files[j]) <==> i <= j
  {
  }

  lemma RowsWithin(files: seq<SqlFile>, rows: seq<AppliedSqlFile>, last: nat)
    requires IsPlan(files) && FirstDrift(Planned(files), rows).None? && last < |files|
    requires forall row | row in rows :: IsDigits(row.version) && Number(row.version) <= Rank(files[last])
    ensures forall row | row in rows :: row in Records(files[..last + 1])
  {
    forall row | row in rows
      ensures row in Records(files[..last + 1])
    {
      var r :| 0 <= r < |rows| && rows[r] == row;
      var i := PlaceOf(files, rows, r);
      RankOrders(files, i, last);
      assert Records(files[..last + 1])[i] == row;
    }
  }

  lemma {:induction false} FilesWithin(files: seq<SqlFile>, rows: seq<AppliedSqlFile>, last: nat)
    requires IsPlan(files) && FirstDrift(Planned(files), rows).None? && last < |files|
    requires Record(files[last]) in rows
    requires forall file | file in files :: file.version in AppliedByVersion(rows) || Rank(file) >= Rank(files[last])
    ensures forall i | 0 <= i <= last :: Record(files[i]) in rows
  {
    forall i | 0 <= i <= last
      ensures Record(files[i]) in rows
    {
      RankOrders(files, last, i);
      if i < last {
        assert files[i] in files;
        AppliedKeys(rows, files[i].version);
        var r :| 0 <= r < |rows| && rows[r].version == files[i].version;
        var j := PlaceOf(files, rows, r);
        VersionsDiffer(files);
      }
    }
  }

  /** Accepted rows are those of the files up to the one of the highest version. */
  lemma AcceptedIsPrefix(files: seq<SqlFile>, rows: seq<AppliedSqlFile>) returns (k: nat)
    requires IsPlan(files) && ValidateAppliedPlan(files, rows).Ok?
    ensures IsPrefixLedger(files, rows, k)
  {
    NoDriftIsDigits(files, rows);
    if rows == [] {
      return 0;
    }
    HighestIsMax(rows);
    InOrderMeans(files, AppliedByVersion(rows), HighestVersion(rows).value);
    var top :| 0 <= top < |rows| && Number(rows[top].version) == HighestVersion(rows).value;
    var last := PlaceOf(files, rows, top);
    k := last + 1;
    assert rows[top] in rows;
    RowsWithin(files, rows, last);
    FilesWithin(files, rows, last);
  }

  lemma PrefixHasNoDrift(files: seq<SqlFile>, rows: seq<AppliedSqlFile>, k: nat)
    requires IsPlan(files) && IsPrefixLedger(files, rows, k)
    ensures FirstDrift(Planned(files), rows).None?
  {
    NoDriftMeans(Planned(files), rows);
    forall row | row in rows
      ensures RowDrift(Planned(files), row).None?
    {
      var i :| 0 <= i < k && Records(files[..k])[i] == row;
      assert Records(files)[i] == row;
      RowMatches(files, row);
    }
  }

  lemma PrefixIsInOrder(files: seq<SqlFile>, rows: seq<AppliedSqlFile>, k: nat, top: nat)
    requires IsPlan(files) && IsPrefixLedger(files, rows, k) && top < |rows| && IsDigits(rows[top].version)
    ensures forall file | file in files ::
            file.version in AppliedByVersion(rows) || Rank(file) >= Number(rows[top].version)
  {
    assert rows[top] in rows;
    var last :| 0 <= last < k && Records(files[..k])[last] == rows[top];
    forall file | file in files
      ensures file.version in AppliedByVersion(rows) || Rank(file) >= Number(rows[top].version)
    {
      var i :| 0 <= i < |files| && files[i] == file;
      RankOrders(files, last, i);
      if i < k {
        assert Record(files[..k][i]) in rows;
        AppliedKeys(rows, file.version);
      }
    }
  }

  lemma PrefixIsAccepted(files: seq<SqlFile>, rows: seq<AppliedSqlFile>, k: nat)
    requires IsPlan(files) && IsPrefixLedger(files, rows, k)
    ensures ValidateAppliedPlan(files, rows).Ok?
  {
    PrefixHasNoDrift(files, rows, k);
    NoDriftIsDigits(files, rows);
    HighestIsMax(rows);
    if rows != [] {
      var highest := HighestVersion(rows).value;
      var top :| 0 <= top < |rows| && Number(rows[top].version) == highest;
      assert rows[top] in rows;
      PrefixIsInOrder(files, rows, k, top);
      InOrderMeans(files, AppliedByVersion(rows), highest);
    }
  }

  /** validateAppliedPlan accepts exactly the ledgers whose rows are those of a prefix of the plan. */
  lemma AcceptsExactlyPrefixes(files: seq<SqlFile>, rows: seq<AppliedSqlFile>)
    requires IsPlan(files)
    ensures ValidateAppliedPlan(files, rows).Ok? <==> exists k :: IsPrefixLedger(files, rows, k)
  {
    if ValidateAppliedPlan(files, rows).Ok? {
      var k := AcceptedIsPrefix(files, rows);
    }
    if k: nat :| IsPrefixLedger(files, rows, k) {
      PrefixIsAccepted(files, rows, k);
    }
  }

  /** The map it returns holds the versions of that prefix and no others. */
  lemma AppliedVersions(files: seq<SqlFile>, rows: seq<AppliedSqlFile>, k: nat, i: nat)
    requires IsPlan(files) && IsPrefixLedger(files, rows, k) && i < |files|
    ensures files[i].version in AppliedByVersion(rows) <==> i < k
  {
    AppliedKeys(rows, files[i].version);
    VersionsDiffer(files);
    if i < k {
      assert Record(files[..k][i]) in rows;
    }
    if r :| 0 <= r < |rows| && rows[r].version == files[i].version {
      assert rows[r] in rows;
      var j :| 0 <= j < k && Records(files[..k])[j] == rows[r];
    }
  }

  // ---------------------------------------------------------------- the run

  /** How one file's transaction goes; in the last case it commits, but the error hides that. */
  datatype Fault = Clean | SqlFails | RecordFails | CommitFails | CommitUnacknowledged

  /** schema is every committed file's SQL, in order. */
  datatype Db = Db(ledger: seq<AppliedSqlFile>, schema: seq<string>)

  datatype Outcome =
    | Done(applied: seq<string>, skipped: seq<string>)
    | Rejected(drift: Drift)
    | Failed(filename: string)

  function Sqls(files: seq<SqlFile>): (sqls: seq<string>)
    ensures |sqls| == |files| && forall i | 0 <= i < |files| :: sqls[i] == files[i].sql
  {
    seq(|files|, i requires 0 <= i < |files| => files[i].sql)
  }

  function Names(files: seq<SqlFile>): (names: seq<string>)
    ensures |names| == |files| && forall i | 0 <= i < |files| :: names[i] == files[i].filename
  {
    seq(|files|, i requires 0 <= i < |files| => files[i].filename)
  }

  /** The leading files that are already applied. */
  function Leading(files: seq<SqlFile>, applied: map<string, AppliedSqlFile>): (k: nat)
    ensures k <= |files|
  {
    if files == [] || files[0].version !in applied then 0 else 1 + Leading(files[1..], applied)
  }

  /** The first file from k on whose transaction does not go cleanly. */
  function Stop(files: seq<SqlFile>, k: nat, fault: nat -> Fault): (n: nat)
    requires k <= |files|
    ensures k <= n <= |files| && (n < |files| ==> !fault(n).Clean?)
    ensures forall i | k <= i < n :: fault(i).Clean?
    decreases |files| - k
  {
    if k == |files| || !fault(k).Clean? then k else Stop(files, k + 1, fault)
  }

  /** How many files are committed when the run ends. */
  function Reached(files: seq<SqlFile>, k: nat, fault: nat -> Fault): (n: nat)
    requires k <= |files|
    ensures k <= n <= |files|
  {
    var n := Stop(files, k, fault);
    if n < |files| && fault(n).CommitUnacknowledged? then n + 1 else n
  }

  function AfterRun(db: Db, files: seq<SqlFile>, fault: nat -> Fault): Db
    requires IsPlan(files)
  {
    var validated := ValidateAppliedPlan(files, db.ledger);
    if validated.Err? then db else
    var k := Leading(files, validated.value);
    WithAdded(db, files[k..Reached(files, k, fault)])
  }

  function RunOutcome(db: Db, files: seq<SqlFile>, fault: nat -> Fault): Outcome
    requires IsPlan(files)
  {
    var validated := ValidateAppliedPlan(files, db.ledger);
    if validated.Err? then Rejected(validated.error) else
    LoopOutcome(files, Leading(files, validated.value), fault)
  }

  function LoopOutcome(files: seq<SqlFile>, k: nat, fault: nat -> Fault): Outcome
    requires k <= |files|
  {
    var n := Stop(files, k, fault);
    if n < |files| then Failed(files[n].filename) else Done(Names(files[k..]), Names(files[..k]))
  }

  predicate Unrecorded(ledger: seq<AppliedSqlFile>, file: SqlFile) {
    forall row | row in ledger :: row.version != file.version && row.filename != file.filename
  }

  class Database {
    var ledger: seq<AppliedSqlFile>
    var schema: seq<string>

    function Snapshot(): Db
      reads this
    {
      Db(ledger, schema)
    }

    constructor ()
      ensures Snapshot() == Db([], [])
    {
      ledger, schema := [], [];
    }

    /** applySqlFile: one transaction; version is the ledger's primary key and filename is unique in it. */
    method ApplySqlFile(file: SqlFile, fault: Fault) returns (ok: bool)
      modifies this
      ensures ok <==> fault.Clean? && Unrecorded(old(ledger), file)
      ensures Snapshot() ==
        if (fault.Clean? || fault.CommitUnacknowledged?) && Unrecorded(old(ledger), file)
        then Db(old(ledger) + [Record(file)], old(schema) + [file.sql]) else old(Snapshot())
    {
      var ledger', schema' := ledger, schema;
      if fault.SqlFails? { return false; }
      schema' := schema' + [file.sql];
      if fault.RecordFails? || !Unrecorded(ledger', file) {
        return false;
      }
      ledger' := ledger' + [Record(file)];
      if fault.CommitFails? { return false; }
      ledger, schema := ledger', schema';
      return fault.Clean?;
    }

    /** One turn of the loop: it skips or applies file i, or ends the run. */
    method Turn(files: seq<SqlFile>, appliedByVersion: map<string, AppliedSqlFile>, i: nat, fault: nat -> Fault,
          applied: seq<string>, skipped: seq<string>, ghost before: Db, ghost k: nat)
      returns (failed: bool, applied': seq<string>, skipped': seq<string>)
      requires IsPlan(files) && IsPrefixLedger(files, before.ledger, k) && i < |files|
      requires appliedByVersion == AppliedByVersion(before.ledger)
      requires Progress(before, Snapshot(), files, k, i, applied, skipped)
      requires Stop(files, Max(i, k), fault) == Stop(files, k, fault)
      modifies this
      ensures failed ==> Snapshot() == WithAdded(before, files[k..Reached(files, k, fault)])
      ensures failed ==> Stop(files, k, fault) == i
      ensures !failed ==> Progress(before, Snapshot(), files, k, i + 1, applied', skipped')
      ensures !failed ==> Stop(files, Max(i + 1, k), fault) == Stop(files, k, fault)
    {
      failed, applied', skipped' := false, applied, skipped;
      TurnProgresses(before, Snapshot(), files, k, i, applied, skipped);
      if files[i].version in appliedByVersion {
        skipped' := skipped + [files[i].filename];
      } else {
        StopsHere(files, k, i, fault);
        var ok := ApplySqlFile(files[i], fault(i));
        if ok {
          applied' := applied + [files[i].filename];
        } else {
          failed := true;
        }
      }
    }

    /** The loop of executeSqlPlan, over a ledger that holds the first k files. */
    method ApplyPending(files: seq<SqlFile>, appliedByVersion: map<string, AppliedSqlFile>, ghost k: nat,
        fault: nat -> Fault)
      returns (r: Outcome)
      requires IsPlan(files) && IsPrefixLedger(files, ledger, k) && appliedByVersion == AppliedByVersion(ledger)
      modifies this
      ensures Snapshot() == WithAdded(old(Snapshot()), files[k..Reached(files, k, fault)])
      ensures r == LoopOutcome(files, k, fault)
    {
      ghost var before := Snapshot();
      var applied: seq<string>, skipped: seq<string> := [], [];
      for i := 0 to |files|
        invariant Progress(before, Snapshot(), files, k, i, applied, skipped)
        invariant Stop(files, Max(i, k), fault) == Stop(files, k, fault)
      {
        var failed;
        failed, applied, skipped := Turn(files, appliedByVersion, i, fault, applied, skipped, before, k);
        if failed {
          return Failed(files[i].filename);
        }
      }
      LastTurn(before, Snapshot(), files, k, applied, skipped);
      return Done(applied, skipped);
    }

    /** executeSqlPlan under the advisory lock. */
    method ExecuteSqlPlan(files: seq<SqlFile>, fault: nat -> Fault) returns (r: Outcome)
      requires IsPlan(files)
      modifies this
      ensures Snapshot() == AfterRun(old(Snapshot()), files, fault)
      ensures r == RunOutcome(old(Snapshot()), files, fault)
    {
      var validated := ValidateAppliedPlan(files, ledger);
      if validated.Err? {
        return Rejected(validated.error);
      }
      LeadingIsPrefix(files, ledger);
      r := ApplyPending(files, validated.value, Leading(files, validated.value), fault);
    }
  }

  /** The files committed before the loop's turn i. */
  function Added(files: seq<SqlFile>, k: nat, i: nat): seq<SqlFile>
    requires k <= |files| && i <= |files|
  {
    if i <= k then [] else files[k..i]
  }

  function WithAdded(db: Db, added: seq<SqlFile>): Db {
    Db(db.ledger + Records(added), db.schema + Sqls(added))
  }

  ghost predicate Progress(before: Db, db: Db, files: seq<SqlFile>, k: nat, i: nat, applied: seq<string>,
      skipped: seq<string>)
    requires k <= |files| && i <= |files|
  {
    && db == WithAdded(before, Added(files, k, i))
    && applied == Names(Added(files, k, i))
    && skipped == Names(files[..Min(i, k)])
  }

  lemma SkipProgresses(before: Db, files: seq<SqlFile>, k: nat, i: nat, skipped: seq<string>)
    requires i < k <= |files| && Progress(before, before, files, k, i, [], skipped)
    ensures Progress(before, before, files, k, i + 1, [], skipped + [files[i].filename])
  {
    assert files[..i + 1] == files[..i] + [files[i]];
  }

  lemma RecordsConcat(left: seq<SqlFile>, right: seq<SqlFile>)
    ensures Records(left + right) == Records(left) + Records(right)
    ensures Sqls(left + right) == Sqls(left) + Sqls(right)
    ensures Names(left + right) == Names(left) + Names(right)
  {
  }

  lemma ApplyProgresses(before: Db, db: Db, files: seq<SqlFile>, k: nat, i: nat, applied: seq<string>,
      skipped: seq<string>)
    requires k <= i < |files| && Progress(before, db, files, k, i, applied, skipped)
    ensures Progress(before, Db(db.ledger + [Record(files[i])], db.schema + [files[i].sql]), files, k, i + 1,
                     applied + [files[i].filename], skipped)
    ensures db == WithAdded(before, files[k..i])
    ensures Db(db.ledger + [Record(files[i])], db.schema + [files[i].sql]) == WithAdded(before, files[k..i + 1])
  {
    var added := Added(files, k, i);
    assert Added(files, k, i + 1) == added + [files[i]];
    RecordsConcat(added, [files[i]]);
    assert db.ledger + [Record(files[i])] == before.ledger + (Records(added) + [Record(files[i])]);
    assert db.schema + [files[i].sql] == before.schema + (Sqls(added) + [files[i].sql]);
  }

  /** One turn of the loop: a file of the prefix is skipped, and a later one meets no row of its own. */
  lemma TurnProgresses(before: Db, db: Db, files: seq<SqlFile>, k: nat, i: nat, applied: seq<string>,
      skipped: seq<string>)
    requires IsPlan(files) && IsPrefixLedger(files, before.ledger, k) && i < |files|
    requires Progress(before, db, files, k, i, applied, skipped)
    ensures files[i].version in AppliedByVersion(before.ledger) <==> i < k
    ensures i < k ==> Progress(before, db, files, k, i + 1, applied, skipped + [files[i].filename])
    ensures k <= i ==>
      var db' := Db(db.ledger + [Record(files[i])], db.schema + [files[i].sql]);
      && Unrecorded(db.ledger, files[i])
      && Progress(before, db', files, k, i + 1, applied + [files[i].filename], skipped)
      && db == WithAdded(before, files[k..i]) && db' == WithAdded(before, files[k..i + 1])
  {
    AppliedVersions(files, before.ledger, k, i);
    if i < k {
      SkipProgresses(before, files, k, i, skipped);
    } else {
      NotYetApplied(files, before.ledger, k, i);
      ApplyProgresses(before, db, files, k, i, applied, skipped);
    }
  }

  lemma StopsHere(files: seq<SqlFile>, k: nat, i: nat, fault: nat -> Fault)
    requires k <= i < |files| && Stop(files, i, fault) == Stop(files, k, fault)
    ensures fault(i).Clean? ==> Stop(files, i + 1, fault) == Stop(files, k, fault)
    ensures !fault(i).Clean? ==> Stop(files, k, fault) == i
    ensures !fault(i).Clean? ==> Reached(files, k, fault) == if fault(i).CommitUnacknowledged? then i + 1 else i
  {
  }

  lemma LastTurn(before: Db, db: Db, files: seq<SqlFile>, k: nat, applied: seq<string>, skipped: seq<string>)
    requires k <= |files| && Progress(before, db, files, k, |files|, applied, skipped)
    ensures db == WithAdded(before, files[k..|files|])
    ensures applied == Names(files[k..]) && skipped == Names(files[..k])
  {
    assert files[k..|files|] == files[k..];
    if k == |files| {
      assert files[k..] == [];
      assert WithAdded(before, []) == before;
    }
  }

  lemma {:induction false} LeadingIs(files: seq<SqlFile>, applied: map<string, AppliedSqlFile>, k: nat)
    requires k <= |files|
    requires forall i | 0 <= i < |files| :: files[i].version in applied <==> i < k
    ensures Leading(files, applied) == k
  {
    if k > 0 {
      LeadingIs(files[1..], applied, k - 1);
    }
  }

  /** Of an accepted ledger the leading applied files are the whole of it. */
  lemma LeadingIsPrefix(files: seq<SqlFile>, rows: seq<AppliedSqlFile>)
    requires IsPlan(files) && ValidateAppliedPlan(files, rows).Ok?
    ensures IsPrefixLedger(files, rows, Leading(files, AppliedByVersion(rows)))
    ensures ValidateAppliedPlan(files, rows).value == AppliedByVersion(rows)
  {
    var k := AcceptedIsPrefix(files, rows);
    forall i | 0 <= i < |files|
      ensures files[i].version in AppliedByVersion(rows) <==> i < k
    {
      AppliedVersions(files, rows, k, i);
    }
    LeadingIs(files, AppliedByVersion(rows), k);
  }

  /** The constraints of the ledger never refuse a file that the run still has to apply. */
  lemma NotYetApplied(files: seq<SqlFile>, rows: seq<AppliedSqlFile>, k: nat, i: nat)
    requires IsPlan(files) && IsPrefixLedger(files, rows, k) && k <= i < |files|
    ensures Unrecorded(rows + Records(files[k..i]), files[i])
  {
    VersionsDiffer(files);
    forall row | row in rows + Records(files[k..i])
      ensures row.version != files[i].version && row.filename != files[i].filename
    {
      if row in rows {
        var j :| 0 <= j < k && Records(files[..k])[j] == row;
        assert files[j].version != files[i].version;
      } else {
        var j :| 0 <= j < i - k && Records(files[k..i])[j] == row;
        assert files[k + j].version != files[i].version;
      }
    }
  }

  // ---------------------------------------------------------------- sequences of runs

  /** The ledger is in ascending order, and the schema is the fold of exactly the files it records. */
  ghost predicate LedgerOk(db: Db) {
    && |db.schema| == |db.ledger|
    && (forall i | 0 <= i < |db.ledger| ::
       IsDigits(db.ledger[i].version) && db.ledger[i].checksum == Sha256(db.schema[i]))
    && (forall i, j | 0 <= i < j < |db.ledger| :: Number(db.ledger[i].version) < Number(db.ledger[j].version))
  }

  /** The first n files of the plan are applied, in order, and nothing else. */
  ghost predicate AppliedUpTo(db: Db, files: seq<SqlFile>, n: nat) {
    n <= |files| && db.ledger == Records(files[..n]) && db.schema == Sqls(files[..n])
  }

  lemma {:induction false} PlaceAtLeast(files: seq<SqlFile>, db: Db, k: nat, i: nat) returns (p: nat)
    requires IsPlan(files) && LedgerOk(db) && IsPrefixLedger(files, db.ledger, k) && i < |db.ledger|
    ensures i <= p < k && db.ledger[i] == Record(files[p])
  {
    assert db.ledger[i] in db.ledger;
    p :| 0 <= p < k && Records(files[..k])[p] == db.ledger[i];
    if i > 0 {
      var before := PlaceAtLeast(files, db, k, i - 1);
      RankOrders(files, p, before);
    }
  }

  lemma {:induction false} IndexAtLeast(files: seq<SqlFile>, db: Db, k: nat, i: nat) returns (q: nat)
    requires IsPlan(files) && LedgerOk(db) && IsPrefixLedger(files, db.ledger, k) && i < k
    ensures i <= q < |db.ledger| && db.ledger[q] == Record(files[i])
  {
    assert Record(files[..k][i]) in db.ledger;
    q :| 0 <= q < |db.ledger| && db.ledger[q] == Record(files[i]);
    if i > 0 {
      var before := IndexAtLeast(files, db, k, i - 1);
      RankOrders(files, i, i - 1);
      LedgerOrders(db, q, before);
    }
  }

  lemma LedgerOrders(db: Db, i: nat, j: nat)
    requires LedgerOk(db) && i < |db.ledger| && j < |db.ledger|
    ensures Number(db.ledger[i].version) <= Number(db.ledger[j].version) <==> i <= j
  {
  }

  /** An ascending ledger with the rows of a prefix is that prefix. */
  lemma AscendingIsEqual(files: seq<SqlFile>, db: Db, k: nat)
    requires IsPlan(files) && LedgerOk(db) && IsPrefixLedger(files, db.ledger, k)
    ensures db.ledger == Records(files[..k])
  {
    if db.ledger != [] {
      var p := PlaceAtLeast(files, db, k, |db.ledger| - 1);
    }
    if k > 0 {
      var q := IndexAtLeast(files, db, k, k - 1);
    }
    forall i | 0 <= i < k
      ensures db.ledger[i] == Records(files[..k])[i]
    {
      var p := PlaceAtLeast(files, db, k, i);
      var q := IndexAtLeast(files, db, k, i);
      LedgerOrders(db, q, i);
      RankOrders(files, p, i);
    }
  }

  lemma SchemaIsPrefix(files: seq<SqlFile>, db: Db, k: nat)
    requires IsPlan(files) && LedgerOk(db) && k <= |files| && db.ledger == Records(files[..k])
    ensures db.schema == Sqls(files[..k])
  {
    forall i | 0 <= i < k
      ensures db.schema[i] == files[i].sql
    {
      assert db.ledger[i] == Record(files[i]);
    }
  }

  lemma AppendKeepsPrefix(files: seq<SqlFile>, db: Db, k: nat, n: nat)
    requires AppliedUpTo(db, files, k) && k <= n <= |files|
    ensures AppliedUpTo(WithAdded(db, files[k..n]), files, n)
  {
    assert files[..n] == files[..k] + files[k..n];
    RecordsConcat(files[..k], files[k..n]);
  }

  /** Whatever plan a run is given, it is refused with nothing changed, or it finds and leaves a prefix. */
  lemma RunKeepsPrefix(db: Db, files: seq<SqlFile>, fault: nat -> Fault)
    requires LedgerOk(db) && IsPlan(files)
    ensures var r := RunOutcome(db, files, fault);
            if r.Rejected? then AfterRun(db, files, fault) == db
            else
              var k := Leading(files, AppliedByVersion(db.ledger));
              && AppliedUpTo(db, files, k)
              && AppliedUpTo(AfterRun(db, files, fault), files, Reached(files, k, fault))
  {
    if ValidateAppliedPlan(files, db.ledger).Ok? {
      LeadingIsPrefix(files, db.ledger);
      var k := Leading(files, AppliedByVersion(db.ledger));
      AscendingIsEqual(files, db, k);
      SchemaIsPrefix(files, db, k);
      AppendKeepsPrefix(files, db, k, Reached(files, k, fault));
    }
  }

  lemma PrefixIsOk(db: Db, files: seq<SqlFile>, n: nat)
    requires IsPlan(files) && AppliedUpTo(db, files, n)
    ensures LedgerOk(db)
  {
    forall i, j | 0 <= i < j < n
      ensures Number(db.ledger[i].version) < Number(db.ledger[j].version)
    {
      assert Rank(files[i]) < Rank(files[j]);
    }
  }

  datatype Attempt = Attempt(files: seq<SqlFile>, fault: nat -> Fault)

  /** Runs under the lock one after the other, each with its own plan and its own faults. */
  ghost function AfterRuns(db: Db, attempts: seq<Attempt>): Db
    requires forall i | 0 <= i < |attempts| :: IsPlan(attempts[i].files)
  {
    if attempts == [] then db else
    var last := attempts[|attempts| - 1];
    AfterRun(AfterRuns(db, attempts[..|attempts| - 1]), last.files, last.fault)
  }

  /** Over any sequence of runs the ledger stays consistent with the schema, and only grows at its end. */
  lemma {:induction false} RunsOnlyAppend(db: Db, attempts: seq<Attempt>)
    requires LedgerOk(db) && forall i | 0 <= i < |attempts| :: IsPlan(attempts[i].files)
    ensures LedgerOk(AfterRuns(db, attempts))
    ensures db.ledger <= AfterRuns(db, attempts).ledger && db.schema <= AfterRuns(db, attempts).schema
  {
    if attempts != [] {
      var last := attempts[|attempts| - 1];
      var before := AfterRuns(db, attempts[..|attempts| - 1]);
      RunsOnlyAppend(db, attempts[..|attempts| - 1]);
      RunKeepsPrefix(before, last.files, last.fault);
      if !RunOutcome(before, last.files, last.fault).Rejected? {
        PrefixIsOk(AfterRun(before, last.files, last.fault), last.files,
                   Reached(last.files, Leading(last.files, AppliedByVersion(before.ledger)), last.fault));
      }
    }
  }

  lemma PrefixIsAcceptedAt(db: Db, files: seq<SqlFile>, n: nat)
    requires IsPlan(files) && AppliedUpTo(db, files, n)
    ensures ValidateAppliedPlan(files, db.ledger).Ok? && Leading(files, AppliedByVersion(db.ledger)) == n
  {
    forall i | 0 <= i < n
      ensures Record(files[..n][i]) in db.ledger
    {
      assert db.ledger[i] == Record(files[..n][i]);
    }
    PrefixIsAccepted(files, db.ledger, n);
    forall i | 0 <= i < |files|
      ensures files[i].version in AppliedByVersion(db.ledger) <==> i < n
    {
      AppliedVersions(files, db.ledger, n, i);
    }
    LeadingIs(files, AppliedByVersion(db.ledger), n);
  }

  /** After a run that failed anywhere, a clean run of the same plan resumes there and completes it. */
  lemma ResumesWhereItStopped(db: Db, files: seq<SqlFile>, fault: nat -> Fault, clean: nat -> Fault)
    requires LedgerOk(db) && IsPlan(files) && !RunOutcome(db, files, fault).Rejected?
    requires forall i | 0 <= i < |files| :: clean(i).Clean?
    ensures var n := Reached(files, Leading(files, AppliedByVersion(db.ledger)), fault);
            var stopped := AfterRun(db, files, fault);
            && RunOutcome(stopped, files, clean) == Done(Names(files[n..]), Names(files[..n]))
            && AppliedUpTo(AfterRun(stopped, files, clean), files, |files|)
  {
    RunKeepsPrefix(db, files, fault);
    var n := Reached(files, Leading(files, AppliedByVersion(db.ledger)), fault);
    var stopped := AfterRun(db, files, fault);
    PrefixIsAcceptedAt(stopped, files, n);
    PrefixIsOk(stopped, files, n);
    RunKeepsPrefix(stopped, files, clean);
    assert Stop(files, n, clean) == |files|;
  }

  /** Once the whole plan is applied, a run applies nothing, whatever would go wrong. */
  lemma CompletedPlanIsStable(db: Db, files: seq<SqlFile>, fault: nat -> Fault)
    requires IsPlan(files) && AppliedUpTo(db, files, |files|)
    ensures AfterRun(db, files, fault) == db
    ensures RunOutcome(db, files, fault) == Done([], Names(files))
  {
    PrefixIsAcceptedAt(db, files, |files|);
    assert files[|files|..|files|] == [] && files[..|files|] == files && files[|files|..] == [];
  }
}
