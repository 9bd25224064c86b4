/**
 The batched purge of one user's rows: each transaction deletes at most a batch and
 reschedules itself until nothing is left.
 */
module PrivacyPurge {
  import opened Text
  import opened AtlasSchema

  const PURGE_BATCH := 200

  datatype Mode = Content | Account

  /** A content wipe keeps the audit trail and the usage ledger. */
  predicate Purges(mode: Mode, t: Table) {
    mode.Account? || (t != AuditEvents && t != AiUsage)
  }

  /** A row, with the file it owns if any. */
  datatype Row = Row(id: nat, user: nat, storageId: Option<nat>, content: string)

  datatype User = User(defaultAvatar: Option<nat>, profile: string)

  /** The tables, each listed in the order of its user index, the stored files and the users. */
  datatype Db = Db(tables: map<Table, seq<Row>>, files: set<nat>, users: map<nat, User>, nextId: nat)

  function RowsOf(db: Db, t: Table): seq<Row> {
    if t in db.tables then db.tables[t] else []
  }

  function UserRows(rows: seq<Row>, user: nat): seq<Row> {
    if rows == [] then []
    else if rows[0].user == user then [rows[0]] + UserRows(rows[1..], user)
    else UserRows(rows[1..], user)
  }

  function OtherRows(rows: seq<Row>, user: nat): seq<Row> {
    if rows == [] then []
    else if rows[0].user == user then OtherRows(rows[1..], user)
    else [rows[0]] + OtherRows(rows[1..], user)
  }

  /** A user's rows and the others' are picked out row by row, in order. */
  lemma {:induction false} OwnersSplit(a: seq<Row>, b: seq<Row>, r: Row, user: nat)
    ensures UserRows([r], user) == (if r.user == user then [r] else [])
    ensures OtherRows([r], user) == (if r.user == user then [] else [r])
    ensures UserRows(a + b, user) == UserRows(a, user) + UserRows(b, user)
    ensures OtherRows(a + b, user) == OtherRows(a, user) + OtherRows(b, user)
  {
    assert [r][1..] == [];
    if a == [] {
      assert a + b == b;
    } else {
      assert (a + b)[1..] == a[1..] + b;
      OwnersSplit(a[1..], b, r, user);
    }
  }

  function FilesOf(rows: seq<Row>): set<nat> {
    set r | r in rows && r.storageId.Some? :: r.storageId.value
  }

  // ----- One table -----

  /** The rows without the first `k` of the user. */
  function DropFirst(rows: seq<Row>, user: nat, k: nat): seq<Row> {
    if rows == [] || k == 0 then rows
    else if rows[0].user == user then DropFirst(rows[1..], user, k - 1)
    else [rows[0]] + DropFirst(rows[1..], user, k)
  }

  /** Dropping takes exactly a prefix of the user's rows and no row of anybody else. */
  lemma {:induction false} DropFirstTakes(rows: seq<Row>, user: nat, k: nat)
    requires k <= |UserRows(rows, user)|
    ensures UserRows(DropFirst(rows, user, k), user) == UserRows(rows, user)[k..]
    ensures OtherRows(DropFirst(rows, user, k), user) == OtherRows(rows, user)
    ensures |DropFirst(rows, user, k)| == |rows| - k
  {
    if rows != [] && k > 0 {
      if rows[0].user == user {
        DropFirstTakes(rows[1..], user, k - 1);
      } else {
        DropFirstTakes(rows[1..], user, k);
        var rest := DropFirst(rows[1..], user, k);
        assert ([rows[0]] + rest)[1..] == rest;
      }
    }
  }

  lemma {:induction false} DropOneMore(rows: seq<Row>, user: nat, k: nat)
    requires k < |UserRows(rows, user)|
    ensures DropFirst(DropFirst(rows, user, k), user, 1) == DropFirst(rows, user, k + 1)
  {
    if k > 0 {
      if rows[0].user == user {
        DropOneMore(rows[1..], user, k - 1);
      } else {
        DropOneMore(rows[1..], user, k);
        var rest := DropFirst(rows[1..], user, k);
        assert ([rows[0]] + rest)[1..] == rest;
      }
    } else {
      assert DropFirst(rows, user, 0) == rows;
    }
  }

  ghost predicate DistinctIds(rows: seq<Row>) {
    forall i, j :: 0 <= i < j < |rows| ==> rows[i].id != rows[j].id
  }

  /** The rows without the one with the given id. */
  function DeleteRow(rows: seq<Row>, id: nat): seq<Row> {
    if rows == [] then []
    else if rows[0].id == id then rows[1..]
    else [rows[0]] + DeleteRow(rows[1..], id)
  }

  lemma {:induction false} UserRowsAreRows(rows: seq<Row>, user: nat, r: Row)
    requires r in UserRows(rows, user)
    ensures r in rows && r.user == user
  {
    if rows[0].user != user || r != rows[0] {
      UserRowsAreRows(rows[1..], user, r);
    }
  }

  lemma {:induction false} DeletingTheFirst(rows: seq<Row>, user: nat)
    requires DistinctIds(rows) && UserRows(rows, user) != []
    ensures DeleteRow(rows, UserRows(rows, user)[0].id) == DropFirst(rows, user, 1)
  {
    if rows[0].user != user {
      var first := UserRows(rows, user)[0];
      UserRowsAreRows(rows[1..], user, first);
      var i :| 0 <= i < |rows[1..]| && rows[1..][i] == first;
      assert rows[i + 1] == first;
      DeletingTheFirst(rows[1..], user);
    } else {
      assert DropFirst(rows[1..], user, 0) == rows[1..];
    }
  }

  lemma {:induction false} DropFirstKeepsDistinct(rows: seq<Row>, user: nat, k: nat)
    requires DistinctIds(rows)
    ensures DistinctIds(DropFirst(rows, user, k))
    ensures forall r :: r in DropFirst(rows, user, k) ==> r in rows
  {
    if rows != [] && k > 0 {
      if rows[0].user == user {
        DropFirstKeepsDistinct(rows[1..], user, k - 1);
      } else {
        DropFirstKeepsDistinct(rows[1..], user, k);
        var rest := DropFirst(rows[1..], user, k);
        var all := [rows[0]] + rest;
        forall i, j | 0 <= i < j < |all|
          ensures all[i].id != all[j].id
        {
          assert all[j] in rest;
          assert all[j] in rows[1..];
        }
      }
    }
  }

  // ----- One batch -----

  /** Delete the first `k` rows the user has in a table, files included. */
  function Trim(db: Db, t: Table, user: nat, k: nat): Db
    requires k <= |UserRows(RowsOf(db, t), user)|
  {
    db.(tables := db.tables[t := DropFirst(RowsOf(db, t), user, k)],
        files := db.files - FilesOf(UserRows(RowsOf(db, t), user)[..k]))
  }

  /** One batch over the given tables: the database after it, and whether it ended with budget to spare. */
  function Batch(tables: seq<Table>, mode: Mode, db: Db, user: nat, budget: nat): (Db, bool) {
    if tables == [] then (db, true)
    else if !Purges(mode, tables[0]) then Batch(tables[1..], mode, db, user, budget)
    else
      var k := Min(budget, |UserRows(RowsOf(db, tables[0]), user)|);
      var after := Trim(db, tables[0], user, k);
      if budget == k then (after, false) else Batch(tables[1..], mode, after, user, budget - k)
  }

  /** How many rows a purge still has to delete. */
  function Remaining(tables: seq<Table>, mode: Mode, db: Db, user: nat): nat {
    if tables == [] then 0
    else if !Purges(mode, tables[0]) then Remaining(tables[1..], mode, db, user)
    else |UserRows(RowsOf(db, tables[0]), user)| + Remaining(tables[1..], mode, db, user)
  }

  lemma {:induction false} RemainingElsewhere(tables: seq<Table>, mode: Mode, db: Db, t: Table, user: nat, k: nat)
    requires t !in tables && k <= |UserRows(RowsOf(db, t), user)|
    ensures Remaining(tables, mode, Trim(db, t, user, k), user) == Remaining(tables, mode, db, user)
  {
    if tables != [] {
      RemainingElsewhere(tables[1..], mode, db, t, user, k);
    }
  }

  lemma HeadIsNotInTail(tables: seq<Table>)
    requires Distinct(tables) && tables != []
    ensures tables[0] !in tables[1..] && Distinct(tables[1..])
  {
    forall i | 0 <= i < |tables[1..]|
      ensures tables[1..][i] != tables[0]
    {
      assert tables[1..][i] == tables[i + 1];
    }
  }

  ghost predicate SameForOthers(before: Db, after: Db, user: nat, t: Table) {
    OtherRows(RowsOf(after, t), user) == OtherRows(RowsOf(before, t), user)
  }

  lemma TrimmedRows(db: Db, t: Table, user: nat, k: nat, other: Table)
    requires k <= |UserRows(RowsOf(db, t), user)|
    ensures RowsOf(Trim(db, t, user, k), other) ==
            if other == t then DropFirst(RowsOf(db, t), user, k) else RowsOf(db, other)
  {
    hide DropFirst, UserRows;
  }

  lemma TrimFrame(db: Db, t: Table, user: nat, k: nat, other: Table)
    requires k <= |UserRows(RowsOf(db, t), user)|
    ensures var after := Trim(db, t, user, k);
            && SameForOthers(db, after, user, other)
            && (other != t ==> RowsOf(after, other) == RowsOf(db, other))
            && UserRows(RowsOf(after, t), user) == UserRows(RowsOf(db, t), user)[k..]
  {
    hide Trim, RowsOf, DropFirst, UserRows, OtherRows;
    DropFirstTakes(RowsOf(db, t), user, k);
    TrimmedRows(db, t, user, k, t);
    TrimmedRows(db, t, user, k, other);
  }

  /** A batch is the last one exactly when it need not use up its budget. */
  lemma {:induction false} BatchEndsIff(tables: seq<Table>, mode: Mode, db: Db, user: nat, budget: nat)
    requires Distinct(tables) && budget > 0
    ensures Batch(tables, mode, db, user, budget).1 <==> Remaining(tables, mode, db, user) < budget
  {
    hide UserRows, OtherRows, DropFirst;
    if tables != [] {
      var t, rest := tables[0], tables[1..];
      HeadIsNotInTail(tables);
      if Purges(mode, t) {
        var k := Min(budget, |UserRows(RowsOf(db, t), user)|);
        RemainingElsewhere(rest, mode, db, t, user, k);
        if k != budget {
          BatchEndsIff(rest, mode, Trim(db, t, user, k), user, budget - k);
        }
      } else {
        BatchEndsIff(rest, mode, db, user, budget);
      }
    }
  }

  /** A batch deletes exactly as many rows as its budget allows. */
  lemma {:induction false} BatchDeletes(tables: seq<Table>, mode: Mode, db: Db, user: nat, budget: nat)
    requires Distinct(tables) && budget > 0
    ensures var n := Remaining(tables, mode, db, user);
            Remaining(tables, mode, Batch(tables, mode, db, user, budget).0, user) ==
                (if n < budget then 0 else n - budget)
  {
    hide UserRows, OtherRows, DropFirst, RowsOf, Trim, Distinct;
    if tables != [] {
      var t, rest := tables[0], tables[1..];
      HeadIsNotInTail(tables);
      if Purges(mode, t) {
        var k := Min(budget, |UserRows(RowsOf(db, t), user)|);
        var after := Trim(db, t, user, k);
        TrimFrame(db, t, user, k, t);
        RemainingElsewhere(rest, mode, db, t, user, k);
        if k != budget {
          BatchDeletes(rest, mode, after, user, budget - k);
          BatchFrame(rest, mode, after, user, budget - k, t);
        }
      } else {
        BatchDeletes(rest, mode, db, user, budget);
      }
    }
  }

  lemma StillSameForOthers(before: Db, mid: Db, after: Db, user: nat, t: Table)
    requires SameForOthers(before, mid, user, t) && SameForOthers(mid, after, user, t)
    ensures SameForOthers(before, after, user, t)
  {
  }

  /** A batch leaves every other user's rows. */
  lemma {:induction false} BatchKeepsOthers(tables: seq<Table>, mode: Mode, db: Db, user: nat, budget: nat, t: Table)
    ensures SameForOthers(db, Batch(tables, mode, db, user, budget).0, user, t)
  {
    hide UserRows, OtherRows, DropFirst;
    if tables != [] {
      if Purges(mode, tables[0]) {
        var k := Min(budget, |UserRows(RowsOf(db, tables[0]), user)|);
        var after := Trim(db, tables[0], user, k);
        TrimFrame(db, tables[0], user, k, t);
        if k != budget {
          BatchKeepsOthers(tables[1..], mode, after, user, budget - k, t);
          StillSameForOthers(db, after, Batch(tables[1..], mode, after, user, budget - k).0, user, t);
        }
      } else {
        BatchKeepsOthers(tables[1..], mode, db, user, budget, t);
      }
    }
  }

  /** A batch leaves every table it does not purge, and the users. */
  lemma {:induction false} BatchFrame(tables: seq<Table>, mode: Mode, db: Db, user: nat, budget: nat, t: Table)
    requires t !in tables || !Purges(mode, t)
    ensures RowsOf(Batch(tables, mode, db, user, budget).0, t) == RowsOf(db, t)
  {
    hide UserRows, OtherRows, DropFirst;
    if tables != [] {
      if Purges(mode, tables[0]) {
        var k := Min(budget, |UserRows(RowsOf(db, tables[0]), user)|);
        if k != budget {
          BatchFrame(tables[1..], mode, Trim(db, tables[0], user, k), user, budget - k, t);
        }
      } else {
        BatchFrame(tables[1..], mode, db, user, budget, t);
      }
    }
  }

  lemma {:induction false} BatchKeepsUsers(tables: seq<Table>, mode: Mode, db: Db, user: nat, budget: nat)
    ensures Batch(tables, mode, db, user, budget).0.users == db.users
    ensures Batch(tables, mode, db, user, budget).0.nextId == db.nextId
  {
    hide UserRows, OtherRows, DropFirst;
    if tables != [] {
      if Purges(mode, tables[0]) {
        var k := Min(budget, |UserRows(RowsOf(db, tables[0]), user)|);
        if k != budget {
          BatchKeepsUsers(tables[1..], mode, Trim(db, tables[0], user, k), user, budget - k);
        }
      } else {
        BatchKeepsUsers(tables[1..], mode, db, user, budget);
      }
    }
  }

  /** The files of the rows a purge still has to delete. */
  function OwedFiles(tables: seq<Table>, mode: Mode, db: Db, user: nat): set<nat> {
    if tables == [] then {}
    else if !Purges(mode, tables[0]) then OwedFiles(tables[1..], mode, db, user)
    else FilesOf(UserRows(RowsOf(db, tables[0]), user)) + OwedFiles(tables[1..], mode, db, user)
  }

  lemma {:induction false} OwedElsewhere(tables: seq<Table>, mode: Mode, db: Db, t: Table, user: nat, k: nat)
    requires t !in tables && k <= |UserRows(RowsOf(db, t), user)|
    ensures OwedFiles(tables, mode, Trim(db, t, user, k), user) == OwedFiles(tables, mode, db, user)
  {
    if tables != [] {
      OwedElsewhere(tables[1..], mode, db, t, user, k);
    }
  }

  lemma FilesSplit(rows: seq<Row>, k: nat)
    requires k <= |rows|
    ensures FilesOf(rows) == FilesOf(rows[..k]) + FilesOf(rows[k..])
  {
    assert rows == rows[..k] + rows[k..];
  }

  lemma SubtractMore(files: set<nat>, owed: set<nat>, files': set<nat>, owed': set<nat>, more: set<nat>)
    requires files - owed == files' - owed'
    ensures files - (more + owed) == files' - (more + owed')
  {
    forall f
      ensures f in files - (more + owed) <==> f in files' - (more + owed')
    {
      assert f in files - owed <==> f in files' - owed';
    }
  }

  /** A batch deletes files only of rows it deletes: files gone and files still owed make up the files owed before. */
  lemma {:induction false} BatchFiles(tables: seq<Table>, mode: Mode, db: Db, user: nat, budget: nat)
    requires Distinct(tables)
    ensures var out := Batch(tables, mode, db, user, budget).0;
            && out.files - OwedFiles(tables, mode, out, user) == db.files - OwedFiles(tables, mode, db, user)
            && out.files <= db.files
  {
    hide UserRows, OtherRows, DropFirst;
    if tables != [] {
      var t, rest := tables[0], tables[1..];
      HeadIsNotInTail(tables);
      if Purges(mode, t) {
        var rows := UserRows(RowsOf(db, t), user);
        var k := Min(budget, |rows|);
        var after := Trim(db, t, user, k);
        TrimFrame(db, t, user, k, t);
        OwedElsewhere(rest, mode, db, t, user, k);
        FilesSplit(rows, k);
        assert after.files - OwedFiles(tables, mode, after, user) == db.files - OwedFiles(tables, mode, db, user);
        if k < budget {
          BatchFiles(rest, mode, after, user, budget - k);
          BatchFrame(rest, mode, after, user, budget - k, t);
          var out := Batch(rest, mode, after, user, budget - k).0;
          assert RowsOf(out, t) == RowsOf(after, t);
          SubtractMore(out.files, OwedFiles(rest, mode, out, user), after.files, OwedFiles(rest, mode, after, user),
                       FilesOf(UserRows(RowsOf(after, t), user)));
        }
      } else {
        BatchFiles(rest, mode, db, user, budget);
      }
    }
  }

  // ----- The whole purge -----

  /** The state one transaction leaves, and whether it scheduled another. */
  function PurgeStep(db: Db, user: nat, mode: Mode): (Db, bool) {
    if user !in db.users then (db, false)
    else
      var out := Batch(USER_TABLES, mode, db, user, PURGE_BATCH);
      if !out.1 then (out.0, true) else (Finished(out.0, user, mode), false)
  }

  /** The audit event of a finished content wipe. */
  function WipeCompleted(id: nat, user: nat): Row {
    Row(id, user, None, "data_wipe_completed")
  }

  function Finished(db: Db, user: nat, mode: Mode): Db {
    if user !in db.users then db
    else
      match mode
      case Account => db.(users := db.users - {user})
      case Content =>
        db.(users := db.users[user := db.users[user].(defaultAvatar := None)],
            tables := db.tables[AuditEvents := RowsOf(db, AuditEvents) + [WipeCompleted(db.nextId, user)]],
            nextId := db.nextId + 1)
  }

  function ToPurge(db: Db, user: nat, mode: Mode): nat {
    Remaining(USER_TABLES, mode, db, user)
  }

  lemma StepMakesProgress(db: Db, user: nat, mode: Mode)
    requires PurgeStep(db, user, mode).1
    ensures ToPurge(PurgeStep(db, user, mode).0, user, mode) == ToPurge(db, user, mode) - PURGE_BATCH
  {
    EveryTableIsListedOnce();
    BatchEndsIff(USER_TABLES, mode, db, user, PURGE_BATCH);
    BatchDeletes(USER_TABLES, mode, db, user, PURGE_BATCH);
  }

  /** The purge run to its end, and how many transactions it took. */
  function Purge(db: Db, user: nat, mode: Mode): (Db, nat)
    decreases ToPurge(db, user, mode)
  {
    var step := PurgeStep(db, user, mode);
    if step.1 then
      StepMakesProgress(db, user, mode);
      var rest := Purge(step.0, user, mode);
      (rest.0, rest.1 + 1)
    else (step.0, 1)
  }

  /** Exactly floor(n / 200) + 1 transactions. */
  lemma {:induction false} PurgeTakes(db: Db, user: nat, mode: Mode)
    requires user in db.users
    ensures Purge(db, user, mode).1 == ToPurge(db, user, mode) / 200 + 1
    decreases ToPurge(db, user, mode)
  {
    var out := Batch(USER_TABLES, mode, db, user, PURGE_BATCH);
    EveryTableIsListedOnce();
    BatchEndsIff(USER_TABLES, mode, db, user, PURGE_BATCH);
    BatchDeletes(USER_TABLES, mode, db, user, PURGE_BATCH);
    if !out.1 {
      StepMakesProgress(db, user, mode);
      BatchKeepsUsers(USER_TABLES, mode, db, user, PURGE_BATCH);
      PurgeTakes(out.0, user, mode);
    }
  }

  lemma {:induction false} NothingRemains(tables: seq<Table>, mode: Mode, db: Db, user: nat, t: Table)
    requires Remaining(tables, mode, db, user) == 0 && t in tables && Purges(mode, t)
    ensures UserRows(RowsOf(db, t), user) == []
  {
    if t != tables[0] {
      NothingRemains(tables[1..], mode, db, user, t);
    }
  }

  lemma {:induction false} NothingOwed(tables: seq<Table>, mode: Mode, db: Db, user: nat)
    requires Remaining(tables, mode, db, user) == 0
    ensures OwedFiles(tables, mode, db, user) == {}
  {
    if tables != [] {
      NothingOwed(tables[1..], mode, db, user);
    }
  }

  /** The tables a purge empties of the user's rows. */
  predicate Eligible(mode: Mode, t: Table) {
    Schema(t).hasUserId && Purges(mode, t)
  }

  /** What a finished purge leaves of table `t`: nothing of the user, everything else as it was. */
  ghost predicate Cleared(before: Db, after: Db, user: nat, mode: Mode, t: Table) {
    && OtherRows(RowsOf(after, t), user) == OtherRows(RowsOf(before, t), user)
    && (Eligible(mode, t) ==> UserRows(RowsOf(after, t), user) == [])
    && (!Eligible(mode, t) ==>
          RowsOf(after, t) == RowsOf(before, t) +
            if t == AuditEvents then [WipeCompleted(before.nextId, user)] else [])
  }

  lemma {:induction false} OtherRowsSnoc(rows: seq<Row>, r: Row)
    ensures OtherRows(rows + [r], r.user) == OtherRows(rows, r.user)
  {
    if rows != [] {
      OtherRowsSnoc(rows[1..], r);
      assert (rows + [r])[1..] == rows[1..] + [r];
    } else {
      assert (rows + [r])[1..] == [];
    }
  }

  lemma FinishingClears(db: Db, out: Db, user: nat, mode: Mode, t: Table)
    requires user in db.users && out.users == db.users && out.nextId == db.nextId
    requires OtherRows(RowsOf(out, t), user) == OtherRows(RowsOf(db, t), user)
    requires if Eligible(mode, t) then UserRows(RowsOf(out, t), user) == [] else RowsOf(out, t) == RowsOf(db, t)
    ensures Cleared(db, Finished(out, user, mode), user, mode, t)
  {
    hide UserRows, OtherRows, Schema;
    OnlyUsersHaveNoOwner(t);
    if t == AuditEvents {
      OtherRowsSnoc(RowsOf(out, t), WipeCompleted(db.nextId, user));
    } else {
      assert RowsOf(Finished(out, user, mode), t) == RowsOf(out, t);
    }
  }

  /** What one batch does to table `t` when it is the last. */
  ghost predicate Emptied(tables: seq<Table>, mode: Mode, db: Db, out: Db, user: nat, t: Table) {
    && OtherRows(RowsOf(out, t), user) == OtherRows(RowsOf(db, t), user)
    && (if t in tables && Purges(mode, t) then UserRows(RowsOf(out, t), user) == []
        else RowsOf(out, t) == RowsOf(db, t))
    && out.files == db.files - OwedFiles(tables, mode, db, user)
    && out.users == db.users && out.nextId == db.nextId
  }

  lemma LastBatchEmpties(tables: seq<Table>, mode: Mode, db: Db, user: nat, t: Table)
    requires Distinct(tables) && Batch(tables, mode, db, user, PURGE_BATCH).1
    ensures Emptied(tables, mode, db, Batch(tables, mode, db, user, PURGE_BATCH).0, user, t)
  {
    hide Batch, UserRows, OtherRows, OwedFiles, Remaining, Distinct;
    var out := Batch(tables, mode, db, user, PURGE_BATCH).0;
    BatchEndsIff(tables, mode, db, user, PURGE_BATCH);
    BatchDeletes(tables, mode, db, user, PURGE_BATCH);
    BatchKeepsUsers(tables, mode, db, user, PURGE_BATCH);
    BatchKeepsOthers(tables, mode, db, user, PURGE_BATCH, t);
    BatchFiles(tables, mode, db, user, PURGE_BATCH);
    NothingOwed(tables, mode, out, user);
    if t in tables && Purges(mode, t) {
      NothingRemains(tables, mode, out, user, t);
    } else {
      BatchFrame(tables, mode, db, user, PURGE_BATCH, t);
    }
  }

  lemma LastBatchClears(db: Db, user: nat, mode: Mode, t: Table)
    requires user in db.users && !PurgeStep(db, user, mode).1
    ensures Cleared(db, PurgeStep(db, user, mode).0, user, mode, t)
    ensures PurgeStep(db, user, mode).0.files == db.files - OwedFiles(USER_TABLES, mode, db, user)
  {
    hide Schema, Batch, UserRows, OtherRows, OwedFiles, Cleared, Distinct;
    EveryTableIsListedOnce();
    LastBatchEmpties(USER_TABLES, mode, db, user, t);
    FinishingClears(db, Batch(USER_TABLES, mode, db, user, PURGE_BATCH).0, user, mode, t);
  }

  /** What a batch that is not the last leaves to the next ones. */
  lemma EarlierBatchKeeps(tables: seq<Table>, mode: Mode, db: Db, user: nat, t: Table)
    requires Distinct(tables) && !Batch(tables, mode, db, user, PURGE_BATCH).1
    ensures var out := Batch(tables, mode, db, user, PURGE_BATCH).0;
            && OtherRows(RowsOf(out, t), user) == OtherRows(RowsOf(db, t), user)
            && ((t in tables && Purges(mode, t)) || RowsOf(out, t) == RowsOf(db, t))
            && out.files - OwedFiles(tables, mode, out, user) == db.files - OwedFiles(tables, mode, db, user)
            && out.users == db.users && out.nextId == db.nextId
  {
    hide Batch, UserRows, OtherRows, OwedFiles, Distinct;
    BatchKeepsUsers(tables, mode, db, user, PURGE_BATCH);
    BatchKeepsOthers(tables, mode, db, user, PURGE_BATCH, t);
    BatchFiles(tables, mode, db, user, PURGE_BATCH);
    if !(t in tables && Purges(mode, t)) {
      BatchFrame(tables, mode, db, user, PURGE_BATCH, t);
    }
  }

  /**
   A finished purge leaves none of the user's eligible rows, keeps the kept tables but for its audit
   event, touches nobody else's rows, and deletes exactly the files of the rows it deleted.
   */
  lemma {:induction false} PurgeClears(db: Db, user: nat, mode: Mode, t: Table)
    requires user in db.users
    ensures Cleared(db, Purge(db, user, mode).0, user, mode, t)
    ensures Purge(db, user, mode).0.files == db.files - OwedFiles(USER_TABLES, mode, db, user)
    decreases ToPurge(db, user, mode)
  {
    hide Schema, Batch, UserRows, OtherRows, OwedFiles, Finished, Distinct, Cleared;
    var step := PurgeStep(db, user, mode);
    if step.1 {
      StepMakesProgress(db, user, mode);
      EveryTableIsListedOnce();
      EarlierBatchKeeps(USER_TABLES, mode, db, user, t);
      PurgeClears(step.0, user, mode, t);
      ClearedLater(db, step.0, Purge(step.0, user, mode).0, user, mode, t);
    } else {
      LastBatchClears(db, user, mode, t);
    }
  }

  lemma ClearedLater(before: Db, mid: Db, after: Db, user: nat, mode: Mode, t: Table)
    requires Cleared(mid, after, user, mode, t) && mid.nextId == before.nextId
    requires OtherRows(RowsOf(mid, t), user) == OtherRows(RowsOf(before, t), user)
    requires Eligible(mode, t) || RowsOf(mid, t) == RowsOf(before, t)
    ensures Cleared(before, after, user, mode, t)
  {
    hide OtherRows, UserRows, RowsOf, Eligible;
  }

  /**
   By table: an account purge leaves nothing of the user in any user table, and a content wipe nothing but
   the usage ledger as it was and the audit trail with one event more.
   */
  lemma PurgeLeavesLedgerAndTrail(db: Db, user: nat, mode: Mode, t: Table)
    requires user in db.users && t != Users
    ensures var after := Purge(db, user, mode).0;
            && (mode.Account? || (t != AuditEvents && t != AiUsage) ==> UserRows(RowsOf(after, t), user) == [])
            && (mode.Content? && t == AiUsage ==> RowsOf(after, t) == RowsOf(db, t))
            && (mode.Content? && t == AuditEvents ==>
                  RowsOf(after, t) == RowsOf(db, t) + [Row(db.nextId, user, None, "data_wipe_completed")])
            && OtherRows(RowsOf(after, t), user) == OtherRows(RowsOf(db, t), user)
  {
    PurgeClears(db, user, mode, t);
    OnlyUsersHaveNoOwner(t);
    hide Purge, Schema, UserRows, OtherRows, RowsOf;
  }

  /** The account goes with an account purge and only then; no other user changes. */
  lemma {:induction false} PurgeUsers(db: Db, user: nat, mode: Mode)
    requires user in db.users
    ensures Purge(db, user, mode).0.users ==
            match mode
            case Account => db.users - {user}
            case Content => db.users[user := db.users[user].(defaultAvatar := None)]
    ensures Purge(db, user, mode).0.nextId == if mode.Content? then db.nextId + 1 else db.nextId
    decreases ToPurge(db, user, mode)
  {
    BatchKeepsUsers(USER_TABLES, mode, db, user, PURGE_BATCH);
    if PurgeStep(db, user, mode).1 {
      StepMakesProgress(db, user, mode);
      PurgeUsers(PurgeStep(db, user, mode).0, user, mode);
    }
  }

  // ----- The mutations -----

  /** Row ids are unique within their table and below the counter. */
  ghost predicate ValidDb(db: Db) {
    forall t :: ValidRows(RowsOf(db, t), db.nextId)
  }

  ghost predicate ValidRows(rows: seq<Row>, nextId: nat) {
    DistinctIds(rows) && forall r :: r in rows ==> r.id < nextId
  }

  lemma TrimKeepsValid(db: Db, t: Table, user: nat, k: nat)
    requires ValidDb(db) && k <= |UserRows(RowsOf(db, t), user)|
    ensures ValidDb(Trim(db, t, user, k))
  {
    assert ValidRows(RowsOf(db, t), db.nextId);
    DropFirstKeepsDistinct(RowsOf(db, t), user, k);
    forall u
      ensures ValidRows(RowsOf(Trim(db, t, user, k), u), db.nextId)
    {
      assert ValidRows(RowsOf(db, u), db.nextId);
      TrimFrame(db, t, user, k, u);
    }
  }

  /** Deleting the next row the user has, by its id, is trimming one row more. */
  lemma TrimOneMore(db: Db, t: Table, user: nat, k: nat)
    requires DistinctIds(RowsOf(db, t)) && k < |UserRows(RowsOf(db, t), user)|
    ensures var row := UserRows(RowsOf(db, t), user)[k];
            var one, two := Trim(db, t, user, k), Trim(db, t, user, k + 1);
            && RowsOf(two, t) == DeleteRow(RowsOf(one, t), row.id)
            && two.files == if row.storageId.Some? then one.files - {row.storageId.value} else one.files
  {
    var rows, mine := RowsOf(db, t), UserRows(RowsOf(db, t), user);
    DropFirstTakes(rows, user, k);
    DropFirstKeepsDistinct(rows, user, k);
    DeletingTheFirst(DropFirst(rows, user, k), user);
    DropOneMore(rows, user, k);
    assert mine[..k + 1] == mine[..k] + [mine[k]];
  }

  lemma AppendKeepsValid(db: Db, t: Table, r: Row)
    requires ValidDb(db) && r.id == db.nextId
    ensures ValidDb(db.(tables := db.tables[t := RowsOf(db, t) + [r]], nextId := db.nextId + 1))
  {
    var after := db.(tables := db.tables[t := RowsOf(db, t) + [r]], nextId := db.nextId + 1);
    forall u
      ensures ValidRows(RowsOf(after, u), after.nextId)
    {
      assert ValidRows(RowsOf(db, u), db.nextId);
      if u == t {
        forall i, j | 0 <= i < j < |RowsOf(after, t)|
          ensures RowsOf(after, t)[i].id != RowsOf(after, t)[j].id
        {
          assert RowsOf(after, t)[i] in RowsOf(db, t);
        }
      }
    }
  }

  class PurgeStore {
    var tables: map<Table, seq<Row>>
    var files: set<nat>
    var users: map<nat, User>
    var nextId: nat

    constructor ()
      ensures View() == Db(map[], {}, map[], 0)
    {
      tables, files, users, nextId := map[], {}, map[], 0;
    }

    ghost function View(): Db
      reads this
    {
      Db(tables, files, users, nextId)
    }

    method DeleteFile(storageId: Option<nat>)
      modifies `files
      ensures files == if storageId.Some? then old(files) - {storageId.value} else old(files)
    {
      if storageId.None? {
        return;
      }
      files := files - {storageId.value};
    }

    /** Delete the first `budget` rows of the user in a table, one after the other. */
    method DeleteUserRows(t: Table, user: nat, budget: nat) returns (deleted: nat)
      requires ValidDb(View())
      modifies `tables, `files
      ensures ValidDb(View())
      ensures deleted == Min(budget, |UserRows(RowsOf(old(View()), t), user)|)
      ensures View() == Trim(old(View()), t, user, deleted)
    {
      ghost var before := View();
      assert ValidRows(RowsOf(before, t), nextId);
      if t !in tables {
        tables := tables[t := []];
      }
      var mine := UserRows(tables[t], user);
      var rows := mine[..Min(budget, |mine|)];
      deleted := 0;
      while deleted < |rows|
        invariant 0 <= deleted <= |rows|
        invariant View() == Trim(before, t, user, deleted)
      {
        TrimOneMore(before, t, user, deleted);
        DeleteFile(rows[deleted].storageId);
        tables := tables[t := DeleteRow(tables[t], rows[deleted].id)];
        deleted := deleted + 1;
      }
      TrimKeepsValid(before, t, user, deleted);
    }

    method PurgeBatch(order: seq<Table>, user: nat, mode: Mode, cap: nat) returns (done: bool)
      requires ValidDb(View()) && cap > 0
      modifies `tables, `files
      ensures ValidDb(View())
      ensures (View(), done) == Batch(order, mode, old(View()), user, cap)
    {
      var budget := cap;
      for i := 0 to |order|
        invariant ValidDb(View()) && budget > 0
        invariant Batch(order[i..], mode, View(), user, budget) == Batch(order, mode, old(View()), user, cap)
      {
        assert order[i..][1..] == order[i + 1..];
        if Purges(mode, order[i]) {
          var deleted := DeleteUserRows(order[i], user, budget);
          budget := budget - deleted;
          if budget <= 0 {
            return false;
          }
        }
      }
      done := true;
    }

    /** One transaction of the purge; the result says whether it scheduled the next one. */
    method PurgeUserData(user: nat, mode: Mode) returns (again: bool)
      requires ValidDb(View())
      modifies this
      ensures (View(), again) == PurgeStep(old(View()), user, mode)
      ensures ValidDb(View())
    {
      if user !in users {
        return false;
      }
      var done := PurgeBatch(USER_TABLES, user, mode, PURGE_BATCH);
      if !done {
        return true;
      }
      Finish(user, mode);
      return false;
    }

    method Finish(user: nat, mode: Mode)
      requires ValidDb(View()) && user in users
      modifies this
      ensures View() == Finished(old(View()), user, mode)
      ensures ValidDb(View())
    {
      match mode
      case Account =>
        users := users - {user};
        assert forall t :: RowsOf(View(), t) == RowsOf(old(View()), t);
      case Content =>
        var event := WipeCompleted(nextId, user);
        AppendKeepsValid(View(), AuditEvents, event);
        users := users[user := users[user].(defaultAvatar := None)];
        tables := tables[AuditEvents := (if AuditEvents in tables then tables[AuditEvents] else []) + [event]];
        nextId := nextId + 1;
        assert forall t :: RowsOf(View(), t) ==
                           if t == AuditEvents then RowsOf(old(View()), t) + [event] else RowsOf(old(View()), t);
    }
  }
}
