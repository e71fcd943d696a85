/** The SQL migration runner (migrations/runner.py): reconciling the ledger with the files,
    and the schema a prefix of the files builds. */
module Migrations {
  import opened Common

  datatype Migration = Migration(filename: string, checksum: string, equivalents: set<string>, sql: string)

  /** `genesis_schema_migrations`: the checksum recorded for each applied file. */
  type Ledger = map<string, string>

  datatype Refusal =
    ChecksumMismatch | MissingMigrationFile | OutOfOrderMigration | LockLost | SqlFailed | AlreadyRecorded

  predicate Ordered(files: seq<Migration>, i: nat, j: nat)
    requires i < |files| && j < |files|
  {
    LexLess(files[i].filename, files[j].filename)
  }

  /** What `discover` returns: files in strict lexical order, each accepting its own checksum. */
  ghost predicate Discovered(files: seq<Migration>) {
    && (forall i, j :: 0 <= i < j < |files| ==> Ordered(files, i, j))
    && (forall i :: 0 <= i < |files| ==> files[i].checksum in files[i].equivalents)
  }

  function Names(files: seq<Migration>): (names: seq<string>)
    ensures |names| == |files| && forall i :: 0 <= i < |files| ==> names[i] == files[i].filename
  {
    seq(|files|, i requires 0 <= i < |files| => files[i].filename)
  }

  // ----- reconcile ------------------------------------------------------------------------

  predicate Drifted(files: seq<Migration>, applied: Ledger) {
    exists m :: m in files && m.filename in applied && applied[m.filename] !in m.equivalents
  }

  predicate Vanished(files: seq<Migration>, applied: Ledger) {
    exists name :: name in applied && forall m :: m in files ==> m.filename != name
  }

  function NotIn(applied: Ledger): Migration -> bool {
    (m: Migration) => m.filename !in applied
  }

  /** A pending file sorts before the highest applied one, that is, before some applied one. */
  predicate Late(pending: seq<Migration>, applied: Ledger) {
    exists m, name :: m in pending && name in applied && LexLess(m.filename, name)
  }

  /** The checks in the order the runner makes them; each is fatal. */
  function Reconcile(files: seq<Migration>, applied: Ledger): Result<seq<Migration>, Refusal> {
    if Drifted(files, applied) then Err(ChecksumMismatch)
    else if Vanished(files, applied) then Err(MissingMigrationFile)
    else
      var pending := Filter(files, NotIn(applied));
      if Late(pending, applied) then Err(OutOfOrderMigration) else Ok(pending)
  }

  predicate RecordedAt(files: seq<Migration>, applied: Ledger, i: nat)
    requires i < |files|
  {
    files[i].filename in applied && applied[files[i].filename] in files[i].equivalents
  }

  predicate NamedBefore(files: seq<Migration>, n: nat, name: string)
    requires n <= |files|
  {
    exists i :: 0 <= i < n && files[i].filename == name
  }

  /** The ledger records exactly the first `n` files, each under an accepted checksum. */
  ghost predicate RecordsPrefix(files: seq<Migration>, applied: Ledger, n: nat) {
    && n <= |files|
    && (forall i :: 0 <= i < n ==> RecordedAt(files, applied, i))
    && (forall name :: name in applied ==> NamedBefore(files, n, name))
  }

  lemma {:induction false} FilesApart(files: seq<Migration>, i: nat, j: nat)
    requires Discovered(files) && i < |files| && j < |files| && files[i].filename == files[j].filename
    ensures i == j
  {
    assert i < j ==> Ordered(files, i, j);
    assert j < i ==> Ordered(files, j, i);
    LexIrreflexive(files[i].filename);
  }

  lemma {:induction false} PendingOfPrefix(files: seq<Migration>, applied: Ledger, n: nat)
    requires n <= |files|
    requires forall i :: 0 <= i < n ==> files[i].filename in applied
    requires forall i :: n <= i < |files| ==> files[i].filename !in applied
    ensures Filter(files, NotIn(applied)) == files[n..]
  {
    var done, pending := files[..n], files[n..];
    forall m | m in done ensures !NotIn(applied)(m) {
      var i :| 0 <= i < n && done[i] == m;
      assert files[i] == m;
    }
    forall m | m in pending ensures NotIn(applied)(m) {
      var i :| 0 <= i < |pending| && pending[i] == m;
      assert files[n + i] == m;
    }
    FilterDropsPrefix(done, pending, NotIn(applied));
    assert files == done + pending;
  }

  lemma {:induction false} PrefixReconciles(files: seq<Migration>, applied: Ledger, n: nat)
    requires Discovered(files) && RecordsPrefix(files, applied, n)
    ensures Reconcile(files, applied) == Ok(files[n..])
  {
    forall m | m in files && m.filename in applied ensures applied[m.filename] in m.equivalents {
      var j :| 0 <= j < |files| && files[j] == m;
      assert NamedBefore(files, n, m.filename);
      var i :| 0 <= i < n && files[i].filename == m.filename;
      FilesApart(files, i, j);
      assert RecordedAt(files, applied, i);
    }
    forall i | n <= i < |files| ensures files[i].filename !in applied {
      if files[i].filename in applied {
        assert NamedBefore(files, n, files[i].filename);
        var k :| 0 <= k < n && files[k].filename == files[i].filename;
        FilesApart(files, k, i);
      }
    }
    assert forall i :: 0 <= i < n ==> RecordedAt(files, applied, i) && files[i].filename in applied;
    PendingOfPrefix(files, applied, n);
    forall m, name | m in files[n..] && name in applied ensures !LexLess(m.filename, name) {
      var j :| n <= j < |files| && files[j] == m;
      assert NamedBefore(files, n, name);
      var i :| 0 <= i < n && files[i].filename == name;
      assert Ordered(files, i, j);
      if LexLess(m.filename, name) {
        LexTransitive(m.filename, name, m.filename);
        LexIrreflexive(m.filename);
      }
    }
  }

  /** How many leading files are recorded. */
  function Leading(files: seq<Migration>, applied: Ledger): (n: nat)
    ensures n <= |files|
    ensures forall i :: 0 <= i < n ==> files[i].filename in applied
    ensures n < |files| ==> files[n].filename !in applied
  {
    if files == [] || files[0].filename !in applied then 0 else 1 + Leading(files[1..], applied)
  }

  lemma {:induction false} ReconcilesPrefix(files: seq<Migration>, applied: Ledger)
    requires Discovered(files) && Reconcile(files, applied).Ok?
    ensures RecordsPrefix(files, applied, Leading(files, applied))
  {
    var n := Leading(files, applied);
    var pending := Filter(files, NotIn(applied));
    if n < |files| {
      assert files[n] in files && files[n] in pending;
      NothingAppliedAfter(files, applied, pending, n);
    }
    forall name | name in applied ensures NamedBefore(files, n, name) {
      var m :| m in files && m.filename == name;
      var i :| 0 <= i < |files| && files[i] == m;
      assert i < n;
    }
    forall i | 0 <= i < n ensures applied[files[i].filename] in files[i].equivalents {
      assert files[i] in files;
    }
  }

  lemma {:induction false} NothingAppliedAfter(files: seq<Migration>, applied: Ledger, pending: seq<Migration>, n: nat)
    requires Discovered(files) && n < |files| && files[n] in pending && files[n].filename !in applied
    requires !Late(pending, applied)
    ensures forall i :: n <= i < |files| ==> files[i].filename !in applied
  {
    forall i | n < i < |files| ensures files[i].filename !in applied {
      assert Ordered(files, n, i);
    }
  }

  /** `reconcile` accepts a ledger exactly when it records a prefix of the sorted files under
      accepted checksums, and what it returns as pending is the rest of the files. */
  lemma {:induction false} ReconcileIff(files: seq<Migration>, applied: Ledger, pending: seq<Migration>)
    requires Discovered(files)
    ensures Reconcile(files, applied) == Ok(pending) <==>
            exists n: nat :: RecordsPrefix(files, applied, n) && pending == files[n..]
  {
    if Reconcile(files, applied) == Ok(pending) {
      ReconcilesPrefix(files, applied);
      PrefixReconciles(files, applied, Leading(files, applied));
    }
    forall n: nat | RecordsPrefix(files, applied, n) ensures Reconcile(files, applied) == Ok(files[n..]) {
      PrefixReconciles(files, applied, n);
    }
  }

  predicate EditedAt(files: seq<Migration>, applied: Ledger, i: nat)
    requires i < |files|
  {
    files[i].filename in applied && applied[files[i].filename] !in files[i].equivalents
  }

  /** An unrecorded file stands before a recorded one. */
  predicate Gap(files: seq<Migration>, applied: Ledger, i: nat, j: nat)
    requires i < |files| && j < |files|
  {
    i < j && files[i].filename !in applied && files[j].filename in applied
  }

  ghost predicate HasEdit(files: seq<Migration>, applied: Ledger) {
    exists i: nat :: i < |files| && EditedAt(files, applied, i)
  }

  ghost predicate HasUnknown(files: seq<Migration>, applied: Ledger) {
    exists name :: name in applied && !NamedBefore(files, |files|, name)
  }

  ghost predicate HasGap(files: seq<Migration>, applied: Ledger) {
    exists i: nat, j: nat :: i < |files| && j < |files| && Gap(files, applied, i, j)
  }

  lemma {:induction false} DriftedIff(files: seq<Migration>, applied: Ledger)
    ensures Drifted(files, applied) <==> HasEdit(files, applied)
  {
    if Drifted(files, applied) {
      var m :| m in files && m.filename in applied && applied[m.filename] !in m.equivalents;
      var i: nat :| i < |files| && files[i] == m;
      assert EditedAt(files, applied, i);
    }
    if HasEdit(files, applied) {
      var i: nat :| i < |files| && EditedAt(files, applied, i);
      assert files[i] in files;
    }
  }

  lemma {:induction false} VanishedIff(files: seq<Migration>, applied: Ledger)
    ensures Vanished(files, applied) <==> HasUnknown(files, applied)
  {
    forall name ensures NamedBefore(files, |files|, name) <==> exists m :: m in files && m.filename == name {
      if m :| m in files && m.filename == name {
        var i :| 0 <= i < |files| && files[i] == m;
      }
    }
  }

  lemma {:induction false} LateIff(files: seq<Migration>, applied: Ledger)
    requires Discovered(files) && !HasUnknown(files, applied)
    ensures Late(Filter(files, NotIn(applied)), applied) <==> HasGap(files, applied)
  {
    var pending := Filter(files, NotIn(applied));
    if Late(pending, applied) {
      var m, name :| m in pending && name in applied && LexLess(m.filename, name);
      var i: nat :| i < |files| && files[i] == m;
      assert NamedBefore(files, |files|, name);
      var j: nat :| j < |files| && files[j].filename == name;
      LaterName(files, i, j);
      assert Gap(files, applied, i, j);
    }
    if HasGap(files, applied) {
      var i: nat, j: nat :| i < |files| && j < |files| && Gap(files, applied, i, j);
      assert Ordered(files, i, j) && files[i] in files && files[i] in pending;
    }
  }

  lemma {:induction false} LaterName(files: seq<Migration>, i: nat, j: nat)
    requires Discovered(files) && i < |files| && j < |files| && LexLess(files[i].filename, files[j].filename)
    ensures i < j
  {
    LexIrreflexive(files[i].filename);
    if j < i {
      assert Ordered(files, j, i);
      LexTransitive(files[i].filename, files[j].filename, files[i].filename);
    }
  }

  /** Each refusal by its cause, the first that applies: an edited file, a recorded file that is
      gone, or an unrecorded file before a recorded one. */
  lemma {:induction false} RefusedIff(files: seq<Migration>, applied: Ledger)
    requires Discovered(files)
    ensures Reconcile(files, applied) == Err(ChecksumMismatch) <==> HasEdit(files, applied)
    ensures Reconcile(files, applied) == Err(MissingMigrationFile) <==>
            !HasEdit(files, applied) && HasUnknown(files, applied)
    ensures Reconcile(files, applied) == Err(OutOfOrderMigration) <==>
            !HasEdit(files, applied) && !HasUnknown(files, applied) && HasGap(files, applied)
  {
    DriftedIff(files, applied);
    VanishedIff(files, applied);
    if !HasUnknown(files, applied) {
      LateIff(files, applied);
    }
  }

  // ----- the database a run leaves --------------------------------------------------------------

  /** Running one file's statements on a schema; `None` when they fail. */
  type Sql<!S> = (S, string) -> Option<S>

  /** The schema after the first `n` files, in order, on an empty database. */
  function Build<S>(sql: Sql<S>, empty: S, files: seq<Migration>, n: nat): Option<S>
    requires n <= |files|
  {
    if n == 0 then Some(empty)
    else
      var before := Build(sql, empty, files, n - 1);
      if before.None? then None else sql(before.value, files[n - 1].sql)
  }

  /** The ledger and schema are those of the first `n` files. */
  ghost predicate AppliedPrefix<S>(sql: Sql<S>, empty: S, files: seq<Migration>, ledger: Ledger, schema: S, n: nat) {
    RecordsPrefix(files, ledger, n) && Build(sql, empty, files, n) == Some(schema)
  }

  lemma {:induction false} ApplyNext<S>(
      sql: Sql<S>, empty: S, files: seq<Migration>, ledger: Ledger, schema: S, n: nat, after: S)
    requires Discovered(files) && AppliedPrefix(sql, empty, files, ledger, schema, n) && n < |files|
    requires sql(schema, files[n].sql) == Some(after)
    ensures AppliedPrefix(sql, empty, files, ledger[files[n].filename := files[n].checksum], after, n + 1)
  {
    var ledger' := ledger[files[n].filename := files[n].checksum];
    forall i | 0 <= i < n + 1
      ensures RecordedAt(files, ledger', i)
    {
      if i < n {
        assert RecordedAt(files, ledger, i);
        assert Ordered(files, i, n);
        LexIrreflexive(files[i].filename);
      }
    }
    forall name | name in ledger' ensures NamedBefore(files, n + 1, name) {
      if name == files[n].filename {
        assert files[n].filename == name;
      } else {
        assert NamedBefore(files, n, name);
        var i :| 0 <= i < n && files[i].filename == name;
      }
    }
  }

  /** A file is recorded exactly when it is among the first `n`. */
  lemma {:induction false} RecordedIff(files: seq<Migration>, ledger: Ledger, n: nat, k: nat)
    requires Discovered(files) && RecordsPrefix(files, ledger, n) && k < |files|
    ensures files[k].filename in ledger <==> k < n
  {
    assert k < n ==> RecordedAt(files, ledger, k);
    if files[k].filename in ledger {
      assert NamedBefore(files, n, files[k].filename);
      var i :| 0 <= i < n && files[i].filename == files[k].filename;
      FilesApart(files, i, k);
    }
  }
}
