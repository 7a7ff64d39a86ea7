/** Provider repair: one update over rollout files and the threads table, with backup and restore. */
module Repair {
  import opened Wrappers
  import opened Rollout

  type Path = seq<string>

  type Files = map<Path, string>

  /** A row of the threads table, whose key is the thread id. */
  datatype Row = Row(provider: Option<string>, cwd: Option<string>)

  /** Without a threads table there are no columns. */
  datatype Database = Database(columns: set<string>, rows: map<string, Row>)

  datatype Home = Home(files: Files, database: Option<Database>)

  /** RolloutRecord and RolloutChange. */
  datatype Item = Item(path: Path, meta: Meta, updated: string, needsUpdate: bool)

  /** What goes wrong: the copy, replacement, row update or restore at an index fails, the database cannot be
      backed up, is busy or does not commit. columns is what the transaction finds in the table. */
  datatype Faults = Faults(copyAt: Option<nat>, snapshot: bool, busy: bool, columns: set<string>,
                           replaceAt: Option<nat>, updateAt: Option<nat>, commit: bool, restoreAt: Option<nat>)

  /** NotRestored is a failure of the repair followed by a failure of the restore. */
  datatype Outcome =
    | Repaired(home: Home, filesUpdated: nat, rowsUpdated: nat, backup: Option<Files>)
    | Failed(home: Home)
    | NotRestored(home: Home)

  // ---- What there is to repair ------------------------------------------------------------------

  function Scan(c: Codec, provider: string, files: Files, listing: seq<Path>): Option<seq<Item>> {
    if listing == [] then Some([])
    else
      var last := listing[|listing| - 1];
      var items := Scan(c, provider, files, listing[..|listing| - 1]);
      if items.None? || last !in files then None
      else
        var seen := Inspect(c, files[last], Some(provider));
        if seen.None? then None
        else
          var needs := seen.value.meta.provider != Some(provider);
          Some(items.value + [Item(last, seen.value.meta, seen.value.updated, needs)])
  }

  /** The query for provider and cwd can be prepared. */
  predicate Queryable(db: Database) {
    "id" in db.columns && "model_provider" in db.columns
  }

  predicate HasCwd(columns: set<string>) {
    "cwd" in columns
  }

  /** Both are known, and they differ. */
  predicate Mismatch(a: Option<string>, b: Option<string>) {
    a.Some? && b.Some? && a != b
  }

  predicate RowNeeds(hasCwd: bool, row: Row, item: Item, provider: string) {
    row.provider != Some(provider) || (hasCwd && Mismatch(item.meta.cwd, row.cwd))
  }

  predicate Needs(db: Option<Database>, item: Item, provider: string) {
    || item.needsUpdate
    || (db.Some? && item.meta.id in db.value.rows
        && RowNeeds(HasCwd(db.value.columns), db.value.rows[item.meta.id], item, provider))
  }

  /** Reading a row whose provider is NULL is an error. */
  predicate BadRow(db: Option<Database>, item: Item) {
    db.Some? && item.meta.id in db.value.rows && db.value.rows[item.meta.id].provider.None?
  }

  function CollectFrom(db: Option<Database>, items: seq<Item>, provider: string): Option<seq<Item>> {
    if items == [] then Some([])
    else
      var last := items[|items| - 1];
      var changes := CollectFrom(db, items[..|items| - 1], provider);
      if changes.None? || BadRow(db, last) then None
      else Some(changes.value + if Needs(db, last, provider) then [last] else [])
  }

  /** collect_repair_changes. */
  function Collect(db: Option<Database>, items: seq<Item>, provider: string): Option<seq<Item>> {
    if db.Some? && !Queryable(db.value) then None else CollectFrom(db, items, provider)
  }

  // ---- The two stores ------------------------------------------------------------------------------

  datatype Replaced = Replaced(ok: bool, files: Files, count: nat)

  /** Replaces the first n changed files that carry another provider. */
  function Replace(files: Files, changes: seq<Item>, n: nat, failsAt: Option<nat>): Replaced
    requires n <= |changes|
  {
    if n == 0 then Replaced(true, files, 0)
    else
      var so := Replace(files, changes, n - 1, failsAt);
      if !so.ok || !changes[n - 1].needsUpdate then so
      else if failsAt == Some(n - 1) then so.(ok := false)
      else Replaced(true, so.files[changes[n - 1].path := changes[n - 1].updated], so.count + 1)
  }

  function Coalesce(a: Option<string>, b: Option<string>): Option<string> {
    if a.Some? then a else b
  }

  function UpdateRow(row: Row, hasCwd: bool, change: Item, provider: string): Row {
    Row(Some(provider), if hasCwd then Coalesce(change.meta.cwd, row.cwd) else row.cwd)
  }

  datatype Updated = Updated(ok: bool, rows: map<string, Row>, count: nat)

  function Update(rows: map<string, Row>, hasCwd: bool, changes: seq<Item>, n: nat, provider: string,
                  failsAt: Option<nat>): Updated
    requires n <= |changes|
  {
    if n == 0 then Updated(true, rows, 0)
    else
      var so := Update(rows, hasCwd, changes, n - 1, provider, failsAt);
      var id := changes[n - 1].meta.id;
      if !so.ok then so
      else if failsAt == Some(n - 1) then so.(ok := false)
      else if id !in so.rows then so
      else Updated(true, so.rows[id := UpdateRow(so.rows[id], hasCwd, changes[n - 1], provider)], so.count + 1)
  }

  datatype Applied = Applied(ok: bool, home: Home, filesUpdated: nat, rowsUpdated: nat)

  /** apply_repair: rows change only when the transaction commits. */
  function Apply(home: Home, changes: seq<Item>, provider: string, faults: Faults): Applied {
    var db := home.database;
    if db.Some? && (faults.busy || "model_provider" !in faults.columns) then Applied(false, home, 0, 0)
    else
      var replaced := Replace(home.files, changes, |changes|, faults.replaceAt);
      var half := home.(files := replaced.files);
      if !replaced.ok then Applied(false, half, 0, 0)
      else if db.None? then Applied(true, half, replaced.count, 0)
      else
        var updated := Update(db.value.rows, HasCwd(faults.columns), changes, |changes|, provider, faults.updateAt);
        if !updated.ok || faults.commit then Applied(false, half, 0, 0)
        else
          Applied(true, half.(database := Some(db.value.(rows := updated.rows))), replaced.count, updated.count)
  }

  /** backup_rollouts, the first n changes; None is its error. */
  function Backup(files: Files, changes: seq<Item>, n: nat, failsAt: Option<nat>): Option<Files>
    requires n <= |changes|
  {
    if n == 0 then Some(map[])
    else
      var so := Backup(files, changes, n - 1, failsAt);
      var path := changes[n - 1].path;
      if so.None? || failsAt == Some(n - 1) || path !in files then None
      else Some(so.value[path := files[path]])
  }

  /** restore_rollouts, the first n changes. */
  function Restore(files: Files, backup: Files, changes: seq<Item>, n: nat, failsAt: Option<nat>): Replaced
    requires n <= |changes|
  {
    if n == 0 then Replaced(true, files, 0)
    else
      var so := Restore(files, backup, changes, n - 1, failsAt);
      var path := changes[n - 1].path;
      if !so.ok then so
      else if failsAt == Some(n - 1) || path !in backup then so.(ok := false)
      else Replaced(true, so.files[path := backup[path]], so.count + 1)
  }

  function Carry(home: Home, changes: seq<Item>, provider: string, faults: Faults): Outcome {
    var backup := Backup(home.files, changes, |changes|, faults.copyAt);
    if backup.None? || (home.database.Some? && faults.snapshot) then Failed(home)
    else
      var applied := Apply(home, changes, provider, faults);
      if applied.ok then Repaired(applied.home, applied.filesUpdated, applied.rowsUpdated, backup)
      else
        var restored := Restore(applied.home.files, backup.value, changes, |changes|, faults.restoreAt);
        var after := applied.home.(files := restored.files);
        if restored.ok then Failed(after) else NotRestored(after)
  }

  /** repair_local. */
  function Run(c: Codec, home: Home, listing: seq<Path>, provider: string, faults: Faults): Outcome {
    var items := Scan(c, provider, home.files, listing);
    if items.None? then Failed(home)
    else
      var changes := Collect(home.database, items.value, provider);
      if changes.None? then Failed(home)
      else if changes.value == [] then Repaired(home, 0, 0, None)
      else Carry(home, changes.value, provider, faults)
  }

  // ---- What the lists hold --------------------------------------------------------------------------

  /** The item stands for the file at its path. */
  ghost predicate ItemOf(c: Codec, provider: string, files: Files, path: Path, item: Item) {
    && path in files
    && var seen := Inspect(c, files[path], Some(provider));
      && seen.Some?
      && item == Item(path, seen.value.meta, seen.value.updated, seen.value.meta.provider != Some(provider))
  }

  lemma {:induction false} ScanItems(c: Codec, provider: string, files: Files, listing: seq<Path>)
    ensures var items := Scan(c, provider, files, listing);
            && (items.Some? <==> forall p :: p in listing ==> p in files && Inspect(c, files[p], Some(provider)).Some?)
            && (items.Some? ==>
                  && |items.value| == |listing|
                  && forall i :: 0 <= i < |listing| ==> ItemOf(c, provider, files, listing[i], items.value[i]))
  {
    hide Inspect;
    if listing != [] {
      var n := |listing| - 1;
      ScanItems(c, provider, files, listing[..n]);
      assert forall p :: p in listing <==> p in listing[..n] || p == listing[n];
    }
  }

  lemma {:induction false} CollectFromItems(db: Option<Database>, items: seq<Item>, provider: string)
    ensures var changes := CollectFrom(db, items, provider);
            && (changes.Some? <==> forall x :: x in items ==> !BadRow(db, x))
            && (changes.Some? ==> forall x :: x in changes.value <==> x in items && Needs(db, x, provider))
  {
    hide Needs, BadRow;
    if items != [] {
      var n := |items| - 1;
      CollectFromItems(db, items[..n], provider);
      assert forall x :: x in items <==> x in items[..n] || x == items[n];
    }
  }

  // ---- Failure leaves things as they were -------------------------------------------------------------

  /** Every file is the original or what the repair writes for it. */
  predicate OldOrNew(files: Files, changes: seq<Item>, after: Files) {
    && after.Keys == files.Keys
    && forall p :: p in files && after[p] != files[p] ==>
        exists i :: 0 <= i < |changes| && changes[i].path == p && changes[i].needsUpdate && after[p] == changes[i].updated
  }

  predicate Present(files: Files, changes: seq<Item>) {
    forall i :: 0 <= i < |changes| ==> changes[i].path in files
  }

  lemma {:induction false} ReplaceOldOrNew(files: Files, changes: seq<Item>, n: nat, failsAt: Option<nat>)
    requires n <= |changes| && Present(files, changes)
    ensures OldOrNew(files, changes, Replace(files, changes, n, failsAt).files)
  {
    if n > 0 {
      ReplaceOldOrNew(files, changes, n - 1, failsAt);
    }
  }

  lemma {:induction false} BackupHolds(files: Files, changes: seq<Item>, n: nat, failsAt: Option<nat>)
    requires n <= |changes|
    ensures var backup := Backup(files, changes, n, failsAt);
            backup.Some? ==>
              && (forall i :: 0 <= i < n ==> changes[i].path in backup.value)
              && (forall p :: p in backup.value ==> p in files && backup.value[p] == files[p])
  {
    if n > 0 {
      BackupHolds(files, changes, n - 1, failsAt);
    }
  }

  lemma {:induction false} RestoreUndoes(files: Files, half: Files, backup: Files, changes: seq<Item>, n: nat, failsAt: Option<nat>)
    requires n <= |changes| && half.Keys == files.Keys
    requires forall p :: p in backup ==> p in files && backup[p] == files[p]
    ensures var r := Restore(half, backup, changes, n, failsAt);
            && r.files.Keys == files.Keys
            && (forall p :: p in files ==> r.files[p] == files[p] || r.files[p] == half[p])
            && (r.ok ==> forall i :: 0 <= i < n ==> changes[i].path in files
                                                     && r.files[changes[i].path] == files[changes[i].path])
  {
    if n > 0 {
      RestoreUndoes(files, half, backup, changes, n - 1, failsAt);
    }
  }

  lemma ApplyFailing(home: Home, changes: seq<Item>, provider: string, faults: Faults)
    requires Present(home.files, changes)
    ensures var a := Apply(home, changes, provider, faults);
            OldOrNew(home.files, changes, a.home.files) && (!a.ok ==> a.home.database == home.database)
  {
    hide Replace, Update, Present, OldOrNew;
    ReplaceOldOrNew(home.files, changes, |changes|, faults.replaceAt);
    assert OldOrNew(home.files, changes, home.files) by {
      SameIsOldOrNew(home.files, changes);
    }
  }

  lemma SameIsOldOrNew(files: Files, changes: seq<Item>)
    ensures OldOrNew(files, changes, files)
  {
  }

  lemma CarryOldOrNew(home: Home, changes: seq<Item>, provider: string, faults: Faults)
    requires Present(home.files, changes)
    ensures var o := Carry(home, changes, provider, faults);
            && OldOrNew(home.files, changes, o.home.files)
            && (!o.Repaired? ==> o.home.database == home.database)
            && (o.Failed? ==> o.home == home)
  {
    hide Apply, Backup, Restore;
    SameIsOldOrNew(home.files, changes);
    var backup := Backup(home.files, changes, |changes|, faults.copyAt);
    BackupHolds(home.files, changes, |changes|, faults.copyAt);
    var applied := Apply(home, changes, provider, faults);
    ApplyFailing(home, changes, provider, faults);
    if backup.Some? {
      RestoreUndoes(home.files, applied.home.files, backup.value, changes, |changes|, faults.restoreAt);
    }
  }

  lemma ItemIsListed(c: Codec, provider: string, files: Files, listing: seq<Path>, items: seq<Item>, x: Item)
    requires |items| == |listing| && x in items
    requires forall i :: 0 <= i < |listing| ==> ItemOf(c, provider, files, listing[i], items[i])
    ensures x.path in listing && ItemOf(c, provider, files, x.path, x)
  {
    hide Inspect;
    var i :| 0 <= i < |items| && items[i] == x;
    assert ItemOf(c, provider, files, listing[i], items[i]);
  }

  lemma ChangesPresent(c: Codec, provider: string, files: Files, listing: seq<Path>, items: seq<Item>, changes: seq<Item>)
    requires |items| == |listing| && forall x :: x in changes ==> x in items
    requires forall i :: 0 <= i < |listing| ==> ItemOf(c, provider, files, listing[i], items[i])
    ensures Present(files, changes)
  {
    forall i | 0 <= i < |changes| ensures changes[i].path in files {
      assert changes[i] in changes;
      ItemIsListed(c, provider, files, listing, items, changes[i]);
    }
  }

  /** The items of a scan that need a change, in terms of the files. */
  lemma ChangesOf(c: Codec, home: Home, listing: seq<Path>, provider: string)
    ensures var items := Scan(c, provider, home.files, listing);
            items.Some? ==>
              && |items.value| == |listing|
              && (forall i :: 0 <= i < |listing| ==> ItemOf(c, provider, home.files, listing[i], items.value[i]))
              && var changes := Collect(home.database, items.value, provider);
                changes.Some? ==>
                  && Present(home.files, changes.value)
                  && (forall x :: x in changes.value <==> x in items.value && Needs(home.database, x, provider))
  {
    hide Inspect, Scan, CollectFrom, Needs;
    ScanItems(c, provider, home.files, listing);
    var items := Scan(c, provider, home.files, listing);
    if items.Some? {
      CollectFromItems(home.database, items.value, provider);
      var changes := Collect(home.database, items.value, provider);
      if changes.Some? {
        ChangesPresent(c, provider, home.files, listing, items.value, changes.value);
      }
    }
  }

  /** If the repair fails at any point and the restore does not, every file and every row is what it was. */
  lemma FailureChangesNothing(c: Codec, home: Home, listing: seq<Path>, provider: string, faults: Faults)
    requires Run(c, home, listing, provider, faults).Failed?
    ensures Run(c, home, listing, provider, faults).home == home
  {
    hide Scan, Collect, Carry, Present, OldOrNew;
    ChangesOf(c, home, listing, provider);
    var items := Scan(c, provider, home.files, listing);
    if items.Some? {
      var changes := Collect(home.database, items.value, provider);
      if changes.Some? {
        CarryOldOrNew(home, changes.value, provider, faults);
      }
    }
  }

  /** What repairing does to one file when it is done. */
  function Aim(c: Codec, provider: string, bytes: string): string {
    var seen := Inspect(c, bytes, Some(provider));
    if seen.Some? && seen.value.meta.provider != Some(provider) then seen.value.updated else bytes
  }

  /** In every outcome, even when the restore fails, each file is the original or its rewrite with the new
      provider, files outside the listing are untouched, and the rows change only on success. */
  lemma NoOtherDamage(c: Codec, home: Home, listing: seq<Path>, provider: string, faults: Faults)
    ensures var o := Run(c, home, listing, provider, faults);
            && o.home.files.Keys == home.files.Keys
            && (forall p :: p in home.files ==>
                              || o.home.files[p] == home.files[p]
                              || (p in listing && o.home.files[p] == Aim(c, provider, home.files[p])))
            && (!o.Repaired? ==> o.home.database == home.database)
  {
    hide Scan, Collect, Carry, Present, Inspect;
    ChangesOf(c, home, listing, provider);
    var items := Scan(c, provider, home.files, listing);
    if items.Some? {
      var changes := Collect(home.database, items.value, provider);
      if changes.Some? {
        CarryOldOrNew(home, changes.value, provider, faults);
        var after := Carry(home, changes.value, provider, faults).home.files;
        if changes.value != [] {
          forall p | p in home.files && after[p] != home.files[p]
            ensures p in listing && after[p] == Aim(c, provider, home.files[p])
          {
            OldOrNewIsAim(c, provider, home.files, listing, items.value, changes.value, after, p);
          }
        }
      }
    }
  }

  lemma OldOrNewIsAim(c: Codec, provider: string, files: Files, listing: seq<Path>, items: seq<Item>,
                      changes: seq<Item>, after: Files, p: Path)
    requires |items| == |listing| && forall x :: x in changes ==> x in items
    requires forall i :: 0 <= i < |listing| ==> ItemOf(c, provider, files, listing[i], items[i])
    requires OldOrNew(files, changes, after) && p in files && after[p] != files[p]
    ensures p in listing && after[p] == Aim(c, provider, files[p])
  {
    hide Inspect;
    var i :| 0 <= i < |changes| && changes[i].path == p && changes[i].needsUpdate && after[p] == changes[i].updated;
    assert changes[i] in changes;
    ItemIsListed(c, provider, files, listing, items, changes[i]);
  }

  // ---- Success --------------------------------------------------------------------------------------

  lemma {:induction false} ReplaceAll(files: Files, changes: seq<Item>, n: nat, failsAt: Option<nat>, aim: Files)
    requires n <= |changes| && Replace(files, changes, n, failsAt).ok && Present(files, changes)
    requires forall i :: 0 <= i < |changes| ==>
               changes[i].path in aim && (changes[i].needsUpdate ==> aim[changes[i].path] == changes[i].updated)
    ensures var after := Replace(files, changes, n, failsAt).files;
            && after.Keys == files.Keys
            && (forall p :: p in files && after[p] != files[p] ==> p in aim && after[p] == aim[p])
            && (forall i :: 0 <= i < n && changes[i].needsUpdate ==> after[changes[i].path] == aim[changes[i].path])
  {
    if n > 0 {
      ReplaceAll(files, changes, n - 1, failsAt, aim);
    }
  }

  function Aims(c: Codec, provider: string, files: Files): Files {
    map p | p in files :: Aim(c, provider, files[p])
  }

  lemma ReplaceReachesAim(c: Codec, provider: string, files: Files, items: seq<Item>, changes: seq<Item>,
                          listing: seq<Path>, failsAt: Option<nat>)
    requires |items| == |listing|
    requires forall i :: 0 <= i < |listing| ==> ItemOf(c, provider, files, listing[i], items[i])
    requires forall x :: x in changes ==> x in items
    requires forall x :: x in items && x.needsUpdate ==> x in changes
    requires Replace(files, changes, |changes|, failsAt).ok
    ensures var after := Replace(files, changes, |changes|, failsAt).files;
            forall p :: p in listing ==> p in files && p in after && after[p] == Aim(c, provider, files[p])
  {
    hide Inspect, Replace;
    var aim := Aims(c, provider, files);
    ChangesPresent(c, provider, files, listing, items, changes);
    forall i | 0 <= i < |changes|
      ensures changes[i].path in aim && (changes[i].needsUpdate ==> aim[changes[i].path] == changes[i].updated)
    {
      assert changes[i] in changes;
      ItemIsListed(c, provider, files, listing, items, changes[i]);
    }
    ReplaceAll(files, changes, |changes|, failsAt, aim);
    var after := Replace(files, changes, |changes|, failsAt).files;
    forall p | p in listing
      ensures p in files && p in after && after[p] == Aim(c, provider, files[p])
    {
      var i :| 0 <= i < |listing| && listing[i] == p;
      assert items[i] in items;
      if items[i].needsUpdate {
        var k :| 0 <= k < |changes| && changes[k] == items[i];
      }
    }
  }

  /** The effect of all updates on one row. */
  function FoldRow(row: Row, hasCwd: bool, changes: seq<Item>, n: nat, id: string, provider: string): Row
    requires n <= |changes|
  {
    if n == 0 then row
    else
      var so := FoldRow(row, hasCwd, changes, n - 1, id, provider);
      if changes[n - 1].meta.id == id then UpdateRow(so, hasCwd, changes[n - 1], provider) else so
  }

  lemma {:induction false} UpdateIsFold(rows: map<string, Row>, hasCwd: bool, changes: seq<Item>, n: nat,
                                        provider: string, failsAt: Option<nat>)
    requires n <= |changes| && Update(rows, hasCwd, changes, n, provider, failsAt).ok
    ensures var after := Update(rows, hasCwd, changes, n, provider, failsAt).rows;
            && after.Keys == rows.Keys
            && forall id :: id in rows ==> after[id] == FoldRow(rows[id], hasCwd, changes, n, id, provider)
  {
    hide UpdateRow;
    if n > 0 {
      UpdateIsFold(rows, hasCwd, changes, n - 1, provider, failsAt);
    }
  }

  /** Some update concerns this thread and knows its working directory. */
  predicate Places(changes: seq<Item>, n: nat, id: string, cwd: Option<string>)
    requires n <= |changes|
  {
    cwd.Some? && exists i :: 0 <= i < n && changes[i].meta.id == id && changes[i].meta.cwd == cwd
  }

  lemma {:induction false} FoldRowIs(row: Row, hasCwd: bool, changes: seq<Item>, n: nat, id: string, provider: string)
    requires n <= |changes|
    ensures var after := FoldRow(row, hasCwd, changes, n, id, provider);
            && after.provider == (if exists i :: 0 <= i < n && changes[i].meta.id == id then Some(provider) else row.provider)
            && (!hasCwd ==> after.cwd == row.cwd)
            && (hasCwd ==>
                  || (after.cwd == row.cwd && forall cwd :: !Places(changes, n, id, cwd))
                  || Places(changes, n, id, after.cwd))
  {
    if n > 0 {
      FoldRowIs(row, hasCwd, changes, n - 1, id, provider);
      var so := FoldRow(row, hasCwd, changes, n - 1, id, provider);
      var last := changes[n - 1];
      if hasCwd {
        if last.meta.id == id && last.meta.cwd.Some? {
          assert Places(changes, n, id, last.meta.cwd);
        } else if Places(changes, n - 1, id, so.cwd) {
          assert Places(changes, n, id, so.cwd);
        } else {
          assert forall cwd :: Places(changes, n, id, cwd) ==> Places(changes, n - 1, id, cwd);
        }
      }
    }
  }

  /** The working directory of a row becomes that of the last changed rollout of its thread that knows one. */
  lemma {:induction false} LastKnownDirectory(row: Row, changes: seq<Item>, n: nat, id: string, provider: string)
    requires n <= |changes|
    ensures var cwd := FoldRow(row, true, changes, n, id, provider).cwd;
            || (cwd == row.cwd && forall i :: 0 <= i < n && changes[i].meta.id == id ==> changes[i].meta.cwd.None?)
            || exists k :: && 0 <= k < n && changes[k].meta.id == id && changes[k].meta.cwd.Some? && changes[k].meta.cwd == cwd
                           && forall i :: k < i < n && changes[i].meta.id == id ==> changes[i].meta.cwd.None?
  {
    if n > 0 {
      LastKnownDirectory(row, changes, n - 1, id, provider);
      var before := FoldRow(row, true, changes, n - 1, id, provider).cwd;
      if changes[n - 1].meta.id == id && changes[n - 1].meta.cwd.Some? {
        assert FoldRow(row, true, changes, n, id, provider).cwd == changes[n - 1].meta.cwd;
      } else {
        assert FoldRow(row, true, changes, n, id, provider).cwd == before;
      }
    }
  }

  /** A repair that succeeded, with the table as it was when the changes were collected: every listed file
      has become what it should be, and every row is the old one with the updates folded in. */
  lemma SuccessIs(c: Codec, home: Home, listing: seq<Path>, provider: string, faults: Faults)
    requires Run(c, home, listing, provider, faults).Repaired?
    requires home.database.Some? ==> faults.columns == home.database.value.columns
    ensures Scan(c, provider, home.files, listing).Some?
    ensures var items := Scan(c, provider, home.files, listing).value;
            Collect(home.database, items, provider).Some?
    ensures var changes := Collect(home.database, Scan(c, provider, home.files, listing).value, provider).value;
            var after := Run(c, home, listing, provider, faults).home;
            && (forall p :: p in listing ==>
                              p in home.files && p in after.files && after.files[p] == Aim(c, provider, home.files[p]))
            && RowsFolded(home.database, after.database, changes, provider)
  {
    hide Scan, Collect, Replace, Update, Inspect, Aim, FoldRow, Backup;
    ChangesOf(c, home, listing, provider);
    var items := Scan(c, provider, home.files, listing).value;
    var changes := Collect(home.database, items, provider).value;
    NeedlessIsAimed(c, home, listing, provider, items);
    FoldNothing(home.database, provider);
    if changes != [] {
      ReplaceReachesAim(c, provider, home.files, items, changes, listing, faults.replaceAt);
      if home.database.Some? {
        UpdateIsFold(home.database.value.rows, HasCwd(faults.columns), changes, |changes|, provider, faults.updateAt);
      }
    }
  }

  ghost predicate RowsFolded(before: Option<Database>, after: Option<Database>, changes: seq<Item>, provider: string) {
    && before.Some? == after.Some?
    && (before.Some? ==>
          && after.value.columns == before.value.columns
          && after.value.rows.Keys == before.value.rows.Keys
          && forall id :: id in before.value.rows ==>
            after.value.rows[id]
            == FoldRow(before.value.rows[id], HasCwd(before.value.columns), changes, |changes|, id, provider))
  }

  lemma FoldNothing(db: Option<Database>, provider: string)
    ensures RowsFolded(db, db, [], provider)
  {
  }

  lemma NeedlessIsAimed(c: Codec, home: Home, listing: seq<Path>, provider: string, items: seq<Item>)
    requires |items| == |listing|
    requires forall i :: 0 <= i < |listing| ==> ItemOf(c, provider, home.files, listing[i], items[i])
    ensures (forall x :: x in items ==> !Needs(home.database, x, provider)) ==>
              forall p :: p in listing ==> p in home.files && home.files[p] == Aim(c, provider, home.files[p])
  {
    hide Inspect;
    forall p | p in listing && forall x :: x in items ==> !Needs(home.database, x, provider)
      ensures p in home.files && home.files[p] == Aim(c, provider, home.files[p])
    {
      var i :| 0 <= i < |listing| && listing[i] == p;
      assert items[i] in items;
    }
  }

  // ---- The report ----------------------------------------------------------------------------------------

  predicate DistinctPaths(items: seq<Item>) {
    forall i, j :: 0 <= i < j < |items| ==> items[i].path != items[j].path
  }

  lemma {:induction false} ChangesDistinct(db: Option<Database>, items: seq<Item>, provider: string)
    requires DistinctPaths(items)
    ensures var changes := CollectFrom(db, items, provider); changes.Some? ==> DistinctPaths(changes.value)
  {
    hide Needs, BadRow;
    if items != [] {
      var n := |items| - 1;
      ChangesDistinct(db, items[..n], provider);
      CollectFromItems(db, items[..n], provider);
      var before := CollectFrom(db, items[..n], provider);
      if before.Some? {
        forall i | 0 <= i < |before.value| ensures before.value[i].path != items[n].path {
          assert before.value[i] in items[..n];
        }
      }
    }
  }

  /** The files whose contents differ. */
  function Changed(files: Files, after: Files): set<Path> {
    set p | p in files && p in after && after[p] != files[p]
  }

  /** What is written for a rollout that needs it is never what was there. */
  predicate RealChanges(files: Files, changes: seq<Item>) {
    forall i :: 0 <= i < |changes| && changes[i].needsUpdate ==>
      changes[i].path in files && changes[i].updated != files[changes[i].path]
  }

  lemma ChangedGrows(files: Files, before: Files, path: Path, updated: string)
    requires before.Keys == files.Keys && path in files && path !in Changed(files, before) && updated != files[path]
    ensures Changed(files, before[path := updated]) == Changed(files, before) + {path}
    ensures |Changed(files, before[path := updated])| == |Changed(files, before)| + 1
  {
    assert Changed(files, before[path := updated]) == Changed(files, before) + {path};
  }

  /** The changed files are at paths of the first n changes. */
  predicate ChangedAmong(changes: seq<Item>, n: nat, paths: set<Path>)
    requires n <= |changes|
  {
    forall p :: p in paths ==> exists i :: 0 <= i < n && changes[i].path == p
  }

  lemma {:induction false} ReplaceCounts(files: Files, changes: seq<Item>, n: nat, failsAt: Option<nat>)
    requires n <= |changes| && DistinctPaths(changes) && Present(files, changes) && RealChanges(files, changes)
    ensures var r := Replace(files, changes, n, failsAt);
            r.count == |Changed(files, r.files)| && ChangedAmong(changes, n, Changed(files, r.files))
  {
    hide Changed;
    if n == 0 {
      assert Changed(files, files) == {} by { NothingChanged(files); }
    } else {
      ReplaceCounts(files, changes, n - 1, failsAt);
      ReplaceOldOrNew(files, changes, n - 1, failsAt);
      var before, item := Replace(files, changes, n - 1, failsAt), changes[n - 1];
      if before.ok && item.needsUpdate && failsAt != Some(n - 1) {
        assert item.path !in Changed(files, before.files);
        ChangedGrows(files, before.files, item.path, item.updated);
      }
    }
  }

  lemma NothingChanged(files: Files)
    ensures Changed(files, files) == {}
  {
  }

  lemma UpdatedDiffers(c: Codec, provider: string, files: Files, x: Item)
    requires Lawful(c) && ItemOf(c, provider, files, x.path, x) && x.needsUpdate
    ensures x.updated != files[x.path]
  {
    hide Inspect, Lawful;
    RewriteAligns(c, files[x.path], provider);
  }

  /** The number of updated rollouts in the report is the number of files whose contents changed. */
  lemma ReportCountsFiles(c: Codec, home: Home, listing: seq<Path>, provider: string, faults: Faults)
    requires Lawful(c) && forall i, j :: 0 <= i < j < |listing| ==> listing[i] != listing[j]
    requires Run(c, home, listing, provider, faults).Repaired?
    ensures var o := Run(c, home, listing, provider, faults);
            o.filesUpdated == |Changed(home.files, o.home.files)|
  {
    hide Scan, CollectFrom, Inspect, Lawful, Replace, Update, Backup, Present, RealChanges, DistinctPaths;
    ChangesOf(c, home, listing, provider);
    var items := Scan(c, provider, home.files, listing).value;
    var changes := Collect(home.database, items, provider).value;
    ItemsDistinct(c, provider, home.files, listing, items);
    ChangesDistinct(home.database, items, provider);
    ItemsReal(c, provider, home.files, listing, items, changes);
    ReplaceCounts(home.files, changes, |changes|, faults.replaceAt);
    assert Changed(home.files, home.files) == {};
  }

  lemma ItemsDistinct(c: Codec, provider: string, files: Files, listing: seq<Path>, items: seq<Item>)
    requires |items| == |listing| && forall i, j :: 0 <= i < j < |listing| ==> listing[i] != listing[j]
    requires forall i :: 0 <= i < |listing| ==> ItemOf(c, provider, files, listing[i], items[i])
    ensures DistinctPaths(items)
  {
    hide Inspect;
    forall i, j | 0 <= i < j < |items| ensures items[i].path != items[j].path {
      assert ItemOf(c, provider, files, listing[i], items[i]) && ItemOf(c, provider, files, listing[j], items[j]);
      assert listing[i] != listing[j];
    }
  }

  lemma ItemsReal(c: Codec, provider: string, files: Files, listing: seq<Path>, items: seq<Item>, changes: seq<Item>)
    requires Lawful(c) && |items| == |listing| && forall x :: x in changes ==> x in items
    requires forall i :: 0 <= i < |listing| ==> ItemOf(c, provider, files, listing[i], items[i])
    ensures RealChanges(files, changes)
  {
    hide Inspect, Lawful;
    forall i | 0 <= i < |changes| && changes[i].needsUpdate
      ensures changes[i].path in files && changes[i].updated != files[changes[i].path]
    {
      assert changes[i] in changes;
      ItemIsListed(c, provider, files, listing, items, changes[i]);
      UpdatedDiffers(c, provider, files, changes[i]);
    }
  }

  // ---- Convergence ----------------------------------------------------------------------------------

  lemma AimAligns(c: Codec, bytes: string, provider: string)
    requires Lawful(c) && Inspect(c, bytes, Some(provider)).Some?
    ensures var seen := Inspect(c, bytes, Some(provider)).value.meta;
            var again := Inspect(c, Aim(c, provider, bytes), Some(provider));
            && again.Some?
            && again.value.meta.id == seen.id && again.value.meta.cwd == seen.cwd
            && again.value.meta.provider == Some(provider)
            && Tail(Aim(c, provider, bytes)) == Tail(bytes)
  {
    hide Inspect, Tail;
    RewriteAligns(c, bytes, provider);
  }

  /** After a successful repair every listed rollout carries the provider, with the same thread, working
      directory and later records; and so does the row of every listed thread. */
  lemma SuccessAligns(c: Codec, home: Home, listing: seq<Path>, provider: string, faults: Faults)
    requires Lawful(c) && Run(c, home, listing, provider, faults).Repaired?
    requires home.database.Some? ==> faults.columns == home.database.value.columns
    ensures var after := Run(c, home, listing, provider, faults).home;
            forall p :: p in listing ==>
              && p in home.files && p in after.files
              && Inspect(c, home.files[p], Some(provider)).Some?
              && Inspect(c, after.files[p], Some(provider)).Some?
              && var was := Inspect(c, home.files[p], Some(provider)).value.meta;
                var now := Inspect(c, after.files[p], Some(provider)).value.meta;
                && now.id == was.id && now.cwd == was.cwd && now.provider == Some(provider)
                && Tail(after.files[p]) == Tail(home.files[p])
                && (after.database.Some? && was.id in after.database.value.rows ==>
                      after.database.value.rows[was.id].provider == Some(provider))
  {
    hide Run, Scan, Collect, Inspect, Aim, Tail, Lawful;
    SuccessIs(c, home, listing, provider, faults);
    ChangesOf(c, home, listing, provider);
    var items := Scan(c, provider, home.files, listing).value;
    var changes := Collect(home.database, items, provider).value;
    var after := Run(c, home, listing, provider, faults).home;
    forall p | p in listing
      ensures p in home.files && p in after.files && Inspect(c, home.files[p], Some(provider)).Some?
      ensures var was := Inspect(c, home.files[p], Some(provider)).value.meta;
              after.database.Some? && was.id in after.database.value.rows ==>
                after.database.value.rows[was.id].provider == Some(provider)
    {
      var i :| 0 <= i < |listing| && listing[i] == p;
      assert ItemOf(c, provider, home.files, listing[i], items[i]);
      assert items[i] in items;
      if after.database.Some? && items[i].meta.id in after.database.value.rows {
        FoldedProvider(home.database.value, items, changes, items[i], provider);
      }
    }
    forall p | p in listing
      ensures var now := Inspect(c, after.files[p], Some(provider));
              var was := Inspect(c, home.files[p], Some(provider)).value.meta;
              && now.Some? && now.value.meta.id == was.id && now.value.meta.cwd == was.cwd
              && now.value.meta.provider == Some(provider) && Tail(after.files[p]) == Tail(home.files[p])
    {
      AimAligns(c, home.files[p], provider);
    }
  }

  lemma FoldedProvider(db: Database, items: seq<Item>, changes: seq<Item>, x: Item, provider: string)
    requires x in items && x.meta.id in db.rows
    requires forall y :: y in changes <==> y in items && Needs(Some(db), y, provider)
    ensures FoldRow(db.rows[x.meta.id], HasCwd(db.columns), changes, |changes|, x.meta.id, provider).provider == Some(provider)
  {
    hide FoldRow;
    FoldRowIs(db.rows[x.meta.id], HasCwd(db.columns), changes, |changes|, x.meta.id, provider);
    if Needs(Some(db), x, provider) {
      var i :| 0 <= i < |changes| && changes[i] == x;
      assert changes[i].meta.id == x.meta.id;
    }
  }

  /** A file of this thread does not agree with the row. */
  predicate Disagrees(items: seq<Item>, id: string, cwd: Option<string>) {
    exists x :: x in items && x.meta.id == id && Mismatch(x.meta.cwd, cwd)
  }

  /** Two rollouts of one thread were made in different directories, and the row of that thread has a
      directory or is about to be given one. */
  predicate Clash(items: seq<Item>, row: Row, id: string, provider: string) {
    && (exists x, y :: x in items && y in items && x.meta.id == id && y.meta.id == id && Mismatch(x.meta.cwd, y.meta.cwd))
    && (|| row.cwd.Some?
        || row.provider != Some(provider)
        || exists z :: z in items && z.meta.id == id && z.meta.cwd.Some? && z.needsUpdate)
  }

  /** The changed items of a thread, seen from its row alone. */
  ghost predicate ChangesFor(items: seq<Item>, changes: seq<Item>, row: Row, id: string, provider: string) {
    forall x: Item :: x.meta.id == id ==>
      (x in changes <==> x in items && (x.needsUpdate || RowNeeds(true, row, x, provider)))
  }

  lemma PlacedBy(changes: seq<Item>, id: string, cwd: Option<string>)
    ensures Places(changes, |changes|, id, cwd) <==>
              cwd.Some? && exists x :: x in changes && x.meta.id == id && x.meta.cwd == cwd
  {
    if cwd.Some? && exists x :: x in changes && x.meta.id == id && x.meta.cwd == cwd {
      var x :| x in changes && x.meta.id == id && x.meta.cwd == cwd;
      var i :| 0 <= i < |changes| && changes[i] == x;
    }
    if Places(changes, |changes|, id, cwd) {
      var i :| 0 <= i < |changes| && changes[i].meta.id == id && changes[i].meta.cwd == cwd;
      assert changes[i] in changes;
    }
  }

  lemma ClashDisagrees(items: seq<Item>, changes: seq<Item>, row: Row, id: string, provider: string, cwd: Option<string>)
    requires ChangesFor(items, changes, row, id, provider) && Clash(items, row, id, provider)
    requires (cwd == row.cwd && forall d :: !Places(changes, |changes|, id, d)) || Places(changes, |changes|, id, cwd)
    ensures Disagrees(items, id, cwd)
  {
    var x, y :| x in items && y in items && x.meta.id == id && y.meta.id == id && Mismatch(x.meta.cwd, y.meta.cwd);
    hide Places;
    PlacedBy(changes, id, cwd);
    if cwd.Some? {
      assert Mismatch(x.meta.cwd, cwd) || Mismatch(y.meta.cwd, cwd);
    } else {
      PlacedBy(changes, id, x.meta.cwd);
      assert x !in changes;
      var z :| z in items && z.meta.id == id && z.meta.cwd.Some? && z.needsUpdate;
      PlacedBy(changes, id, z.meta.cwd);
    }
  }

  lemma DisagreesClash(items: seq<Item>, changes: seq<Item>, row: Row, id: string, provider: string, cwd: Option<string>)
    requires ChangesFor(items, changes, row, id, provider) && Disagrees(items, id, cwd)
    requires (cwd == row.cwd && forall d :: !Places(changes, |changes|, id, d)) || Places(changes, |changes|, id, cwd)
    ensures Clash(items, row, id, provider)
  {
    hide Places;
    var x :| x in items && x.meta.id == id && Mismatch(x.meta.cwd, cwd);
    PlacedBy(changes, id, cwd);
    PlacedBy(changes, id, x.meta.cwd);
    if Places(changes, |changes|, id, cwd) {
      var y :| y in changes && y.meta.id == id && y.meta.cwd == cwd;
      assert y in items && (y.needsUpdate || RowNeeds(true, row, y, provider));
    } else {
      assert false;
    }
  }

  lemma RowSettles(items: seq<Item>, changes: seq<Item>, row: Row, id: string, provider: string)
    requires ChangesFor(items, changes, row, id, provider)
    ensures var after := FoldRow(row, true, changes, |changes|, id, provider);
            Disagrees(items, id, after.cwd) <==> Clash(items, row, id, provider)
  {
    hide Places, FoldRow, Disagrees, Clash, ChangesFor;
    FoldRowIs(row, true, changes, |changes|, id, provider);
    var after := FoldRow(row, true, changes, |changes|, id, provider);
    if Clash(items, row, id, provider) {
      ClashDisagrees(items, changes, row, id, provider, after.cwd);
    }
    if Disagrees(items, id, after.cwd) {
      DisagreesClash(items, changes, row, id, provider, after.cwd);
    }
  }

  /** Some thread in the table clashes. */
  ghost predicate Clashes(db: Option<Database>, items: seq<Item>, provider: string) {
    && db.Some? && HasCwd(db.value.columns)
    && exists id :: id in db.value.rows && Clash(items, db.value.rows[id], id, provider)
  }

  predicate HasTwin(items: seq<Item>, x: Item) {
    exists y :: y in items && y.meta.id == x.meta.id && y.meta.cwd == x.meta.cwd
  }

  predicate Covers(items: seq<Item>, others: seq<Item>) {
    forall x :: x in others ==> HasTwin(items, x)
  }

  /** A second scan finds the same threads in the same directories, and no rollout to rewrite. */
  predicate SameThreads(items: seq<Item>, again: seq<Item>) {
    Covers(items, again) && Covers(again, items) && forall x :: x in again ==> !x.needsUpdate
  }

  lemma RescanMatches(c: Codec, provider: string, files: Files, after: Files, p: Path, x: Item, y: Item)
    requires Lawful(c) && ItemOf(c, provider, files, p, y) && ItemOf(c, provider, after, p, x)
    requires after[p] == Aim(c, provider, files[p])
    ensures !x.needsUpdate && x.meta.id == y.meta.id && x.meta.cwd == y.meta.cwd
  {
    hide Inspect, Lawful, Aim;
    AimAligns(c, files[p], provider);
  }

  /** The list of items has one for every listed file. */
  lemma ItemFor(c: Codec, provider: string, files: Files, listing: seq<Path>, p: Path)
    requires Scan(c, provider, files, listing).Some? && p in listing
    ensures exists x :: x in Scan(c, provider, files, listing).value && x.path == p && ItemOf(c, provider, files, p, x)
  {
    hide Inspect, Scan;
    ScanItems(c, provider, files, listing);
    var i :| 0 <= i < |listing| && listing[i] == p;
    var x := Scan(c, provider, files, listing).value[i];
    assert ItemOf(c, provider, files, listing[i], x);
  }

  /** Every item of either scan has a twin in the other. */
  lemma RescanTwin(c: Codec, provider: string, files: Files, after: Files, listing: seq<Path>, relisting: seq<Path>, x: Item)
    requires Lawful(c) && Scan(c, provider, files, listing).Some? && Scan(c, provider, after, relisting).Some?
    requires forall p :: p in listing <==> p in relisting
    requires forall p :: p in listing ==> p in files && p in after && after[p] == Aim(c, provider, files[p])
    ensures x in Scan(c, provider, after, relisting).value ==> !x.needsUpdate && HasTwin(Scan(c, provider, files, listing).value, x)
    ensures x in Scan(c, provider, files, listing).value ==> HasTwin(Scan(c, provider, after, relisting).value, x)
  {
    hide Inspect, Lawful, Aim, Scan, ItemOf;
    ScanItems(c, provider, files, listing);
    ScanItems(c, provider, after, relisting);
    var items, again := Scan(c, provider, files, listing).value, Scan(c, provider, after, relisting).value;
    if x in again {
      ItemIsListed(c, provider, after, relisting, again, x);
      ItemFor(c, provider, files, listing, x.path);
      var y :| y in items && y.path == x.path && ItemOf(c, provider, files, x.path, y);
      RescanMatches(c, provider, files, after, x.path, x, y);
    }
    if x in items {
      ItemIsListed(c, provider, files, listing, items, x);
      ItemFor(c, provider, after, relisting, x.path);
      var y :| y in again && y.path == x.path && ItemOf(c, provider, after, x.path, y);
      RescanMatches(c, provider, files, after, x.path, y, x);
    }
  }

  lemma Rescan(c: Codec, provider: string, files: Files, after: Files, listing: seq<Path>, relisting: seq<Path>)
    requires Lawful(c) && Scan(c, provider, files, listing).Some?
    requires forall p :: p in listing <==> p in relisting
    requires forall p :: p in listing ==> p in files && p in after && after[p] == Aim(c, provider, files[p])
    ensures Scan(c, provider, after, relisting).Some?
    ensures SameThreads(Scan(c, provider, files, listing).value, Scan(c, provider, after, relisting).value)
  {
    hide Inspect, Lawful, Aim, Scan, HasTwin;
    ScanItems(c, provider, files, listing);
    ScanItems(c, provider, after, relisting);
    forall p | p in relisting ensures Inspect(c, after[p], Some(provider)).Some? {
      AimAligns(c, files[p], provider);
    }
    var items, again := Scan(c, provider, files, listing).value, Scan(c, provider, after, relisting).value;
    forall x | x in again ensures !x.needsUpdate && HasTwin(items, x) {
      RescanTwin(c, provider, files, after, listing, relisting, x);
    }
    forall y | y in items ensures HasTwin(again, y) {
      RescanTwin(c, provider, files, after, listing, relisting, y);
    }
  }

  lemma CoveredDisagrees(items: seq<Item>, others: seq<Item>, id: string, cwd: Option<string>)
    requires Covers(items, others) && Disagrees(others, id, cwd)
    ensures Disagrees(items, id, cwd)
  {
    var x :| x in others && x.meta.id == id && Mismatch(x.meta.cwd, cwd);
    assert HasTwin(items, x);
  }

  lemma SameDisagree(items: seq<Item>, again: seq<Item>, id: string, cwd: Option<string>)
    requires SameThreads(items, again)
    ensures Disagrees(items, id, cwd) <==> Disagrees(again, id, cwd)
  {
    hide Covers, Disagrees;
    if Disagrees(items, id, cwd) {
      CoveredDisagrees(again, items, id, cwd);
    }
    if Disagrees(again, id, cwd) {
      CoveredDisagrees(items, again, id, cwd);
    }
  }

  lemma AgainProviders(before: Database, after: Database, items: seq<Item>, changes: seq<Item>, again: seq<Item>, provider: string)
    requires RowsFolded(Some(before), Some(after), changes, provider) && Covers(items, again)
    requires forall x :: x in changes <==> x in items && Needs(Some(before), x, provider)
    ensures forall x :: x in again && x.meta.id in after.rows ==> after.rows[x.meta.id].provider == Some(provider)
  {
    hide FoldRow, Needs;
    forall x | x in again && x.meta.id in after.rows
      ensures after.rows[x.meta.id].provider == Some(provider)
    {
      assert HasTwin(items, x);
      var y :| y in items && y.meta.id == x.meta.id && y.meta.cwd == x.meta.cwd;
      FoldedProvider(before, items, changes, y, provider);
    }
  }

  lemma ChangesForRow(db: Database, items: seq<Item>, changes: seq<Item>, id: string, provider: string)
    requires HasCwd(db.columns) && id in db.rows
    requires forall x :: x in changes <==> x in items && Needs(Some(db), x, provider)
    ensures ChangesFor(items, changes, db.rows[id], id, provider)
  {
  }

  /** Which of the items a second run would still change. */
  lemma AgainNeeds(before: Database, after: Database, items: seq<Item>, changes: seq<Item>, again: seq<Item>, provider: string)
    requires RowsFolded(Some(before), Some(after), changes, provider) && SameThreads(items, again)
    requires forall x :: x in changes <==> x in items && Needs(Some(before), x, provider)
    ensures (exists x :: x in again && Needs(Some(after), x, provider)) <==> Clashes(Some(before), items, provider)
  {
    hide FoldRow, Clash, Disagrees, Covers;
    AgainProviders(before, after, items, changes, again, provider);
    if exists x :: x in again && Needs(Some(after), x, provider) {
      var x :| x in again && Needs(Some(after), x, provider);
      var id := x.meta.id;
      AgainDisagrees(again, x, after.rows[id].cwd);
      SameDisagree(items, again, id, after.rows[id].cwd);
      ChangesForRow(before, items, changes, id, provider);
      RowSettles(items, changes, before.rows[id], id, provider);
    }
    if Clashes(Some(before), items, provider) {
      var id :| id in before.rows && Clash(items, before.rows[id], id, provider);
      ChangesForRow(before, items, changes, id, provider);
      RowSettles(items, changes, before.rows[id], id, provider);
      SameDisagree(items, again, id, after.rows[id].cwd);
      DisagreeingNeeds(after, again, id, provider);
    }
  }

  lemma AgainDisagrees(again: seq<Item>, x: Item, cwd: Option<string>)
    requires x in again && Mismatch(x.meta.cwd, cwd)
    ensures Disagrees(again, x.meta.id, cwd)
  {
  }

  lemma DisagreeingNeeds(db: Database, again: seq<Item>, id: string, provider: string)
    requires HasCwd(db.columns) && id in db.rows && Disagrees(again, id, db.rows[id].cwd)
    ensures exists x :: x in again && Needs(Some(db), x, provider)
  {
    var x :| x in again && x.meta.id == id && Mismatch(x.meta.cwd, db.rows[id].cwd);
    assert Needs(Some(db), x, provider);
  }

  /** After a successful repair, a second run with the same provider finds nothing to do exactly when, before
      the first run, no thread of the table had rollouts from different directories. */
  lemma ConvergesExactly(c: Codec, home: Home, listing: seq<Path>, provider: string, faults: Faults, relisting: seq<Path>)
    requires Lawful(c) && Run(c, home, listing, provider, faults).Repaired?
    requires home.database.Some? ==> faults.columns == home.database.value.columns
    requires forall p :: p in listing <==> p in relisting
    ensures Scan(c, provider, home.files, listing).Some?
    ensures var after := Run(c, home, listing, provider, faults).home;
            && Scan(c, provider, after.files, relisting).Some?
            && var again := Collect(after.database, Scan(c, provider, after.files, relisting).value, provider);
              && again.Some?
              && (again.value == [] <==>
                    !Clashes(home.database, Scan(c, provider, home.files, listing).value, provider))
  {
    hide Run, Scan, CollectFrom, Inspect, Aim, Lawful, Clashes, FoldRow, Covers, Needs;
    SuccessIs(c, home, listing, provider, faults);
    ChangesOf(c, home, listing, provider);
    var after := Run(c, home, listing, provider, faults).home;
    Rescan(c, provider, home.files, after.files, listing, relisting);
    var items := Scan(c, provider, home.files, listing).value;
    var changes := Collect(home.database, items, provider).value;
    var again := Scan(c, provider, after.files, relisting).value;
    CollectFromItems(after.database, again, provider);
    if home.database.Some? {
      AgainProviders(home.database.value, after.database.value, items, changes, again, provider);
      AgainNeeds(home.database.value, after.database.value, items, changes, again, provider);
    } else {
      NoTableNoNeeds(items, again, provider);
    }
    var second := CollectFrom(after.database, again, provider);
    assert second.Some?;
    NothingCollected(after.database, again, second.value, provider);
  }

  lemma NothingCollected(db: Option<Database>, items: seq<Item>, changes: seq<Item>, provider: string)
    requires forall x :: x in changes <==> x in items && Needs(db, x, provider)
    ensures changes == [] <==> !exists x :: x in items && Needs(db, x, provider)
  {
    hide Needs;
    if changes != [] {
      assert changes[0] in changes;
    }
  }

  lemma NoTableNoNeeds(items: seq<Item>, again: seq<Item>, provider: string)
    requires SameThreads(items, again)
    ensures !exists x :: x in again && Needs(None, x, provider)
    ensures !Clashes(None, items, provider)
  {
  }

  predicate DistinctThreads(items: seq<Item>) {
    forall i, j :: 0 <= i < |items| && 0 <= j < |items| && items[i].meta.id == items[j].meta.id ==> i == j
  }

  /** When the rollouts belong to distinct threads, a second run changes nothing and makes no backup,
      whatever would go wrong in it. */
  lemma DistinctThreadsConverge(c: Codec, home: Home, listing: seq<Path>, provider: string, faults: Faults,
                                relisting: seq<Path>, later: Faults)
    requires Lawful(c) && Run(c, home, listing, provider, faults).Repaired?
    requires home.database.Some? ==> faults.columns == home.database.value.columns
    requires forall p :: p in listing <==> p in relisting
    requires DistinctThreads(Scan(c, provider, home.files, listing).value)
    ensures var after := Run(c, home, listing, provider, faults).home;
            Run(c, after, relisting, provider, later) == Repaired(after, 0, 0, None)
  {
    hide Scan, Collect, Inspect, Carry, Lawful;
    ConvergesExactly(c, home, listing, provider, faults, relisting);
  }

  lemma CollectPair(db: Database, x: Item, y: Item, provider: string)
    requires Queryable(db) && HasCwd(db.columns) && x.meta.id == y.meta.id && !x.needsUpdate && !y.needsUpdate
    requires x.meta.id in db.rows && db.rows[x.meta.id].provider == Some(provider)
    ensures var cwd := db.rows[x.meta.id].cwd;
            Collect(Some(db), [x, y], provider)
            == Some((if Mismatch(x.meta.cwd, cwd) then [x] else []) + (if Mismatch(y.meta.cwd, cwd) then [y] else []))
  {
    var cwd := db.rows[x.meta.id].cwd;
    var first := if Mismatch(x.meta.cwd, cwd) then [x] else [];
    assert [x][..0] == [] && [] + first == first;
    assert CollectFrom(Some(db), [x], provider) == Some(first);
    assert [x, y][..1] == [x];
  }

  lemma CarryOne(home: Home, z: Item, provider: string, faults: Faults)
    requires z.path in home.files && !z.needsUpdate && z.meta.cwd.Some?
    requires home.database.Some? && Queryable(home.database.value) && HasCwd(home.database.value.columns)
    requires z.meta.id in home.database.value.rows
    requires faults == Faults(None, false, false, home.database.value.columns, None, None, false, None)
    ensures var rows := home.database.value.rows[z.meta.id := Row(Some(provider), z.meta.cwd)];
            Carry(home, [z], provider, faults)
            == Repaired(home.(database := Some(home.database.value.(rows := rows))), 0, 1,
                        Some(map[z.path := home.files[z.path]]))
  {
    assert Backup(home.files, [z], 0, None) == Some(map[]);
    assert Replace(home.files, [z], 0, None) == Replaced(true, home.files, 0);
    assert Update(home.database.value.rows, true, [z], 0, provider, None) == Updated(true, home.database.value.rows, 0);
  }

  /** Two rollouts of one thread in directories a and b, both with the provider already, and its row at a:
      each repair moves the row to the other directory and makes a backup, forever. */
  lemma TwoDirectoriesAlternate(c: Codec, home: Home, p: Path, q: Path, provider: string, id: string, a: string, b: string,
                                x: Item, y: Item, faults: Faults)
    requires p in home.files && x == Item(p, Meta(id, Some(a), Some(provider), false), home.files[p], false)
    requires q in home.files && y == Item(q, Meta(id, Some(b), Some(provider), false), home.files[q], false)
    requires a != b
    requires Scan(c, provider, home.files, [p, q]) == Some([x, y])
    requires home.database.Some? && Queryable(home.database.value) && HasCwd(home.database.value.columns)
    requires id in home.database.value.rows && home.database.value.rows[id] == Row(Some(provider), Some(a))
    requires faults == Faults(None, false, false, home.database.value.columns, None, None, false, None)
    ensures var once := Run(c, home, [p, q], provider, faults);
            && once.Repaired? && once.backup == Some(map[q := home.files[q]])
            && once.home.files == home.files
            && once.home.database.value.rows == home.database.value.rows[id := Row(Some(provider), Some(b))]
            && var twice := Run(c, once.home, [p, q], provider, faults);
              twice.Repaired? && twice.backup == Some(map[p := home.files[p]]) && twice.home == home
  {
    hide Scan, Inspect, Collect, Carry;
    var there := Row(Some(provider), Some(b));
    assert [] + [y] == [y] && [x] + [] == [x];
    CollectPair(home.database.value, x, y, provider);
    CarryOne(home, y, provider, faults);
    var moved := home.database.value.(rows := home.database.value.rows[id := there]);
    CollectPair(moved, x, y, provider);
    CarryOne(home.(database := Some(moved)), x, provider, faults);
    assert moved.rows[id := home.database.value.rows[id]] == home.database.value.rows;
  }

  // ---- The code that changes files and rows --------------------------------------------------------------

  class CodexHome {
    var files: Files
    var database: Option<Database>

    constructor (home: Home)
      ensures Value() == home
    {
      files, database := home.files, home.database;
    }

    function Value(): Home
      reads this
    {
      Home(files, database)
    }

    /** The first loop of repair_local. */
    method ScanRollouts(c: Codec, provider: string, listing: seq<Path>) returns (records: Option<seq<Item>>)
      ensures records == Scan(c, provider, files, listing)
    {
      hide Inspect;
      var items: seq<Item> := [];
      var i := 0;
      while i < |listing|
        invariant 0 <= i <= |listing| && Scan(c, provider, files, listing[..i]) == Some(items)
      {
        assert listing[..i + 1][..i] == listing[..i];
        ScanFails(c, provider, files, listing, i + 1);
        if listing[i] !in files {
          return None;
        }
        var seen := Inspect(c, files[listing[i]], Some(provider));
        if seen.None? {
          return None;
        }
        var needsUpdate := seen.value.meta.provider != Some(provider);
        items := items + [Item(listing[i], seen.value.meta, seen.value.updated, needsUpdate)];
        i := i + 1;
      }
      assert listing[..i] == listing;
      return Some(items);
    }

    /** collect_repair_changes. */
    method CollectRepairChanges(records: seq<Item>, provider: string) returns (changes: Option<seq<Item>>)
      ensures changes == Collect(database, records, provider)
    {
      if database.Some? && !Queryable(database.value) {
        return None;
      }
      var result: seq<Item> := [];
      var i := 0;
      while i < |records|
        invariant 0 <= i <= |records| && CollectFrom(database, records[..i], provider) == Some(result)
      {
        assert records[..i + 1][..i] == records[..i];
        CollectFails(database, records, i + 1, provider);
        assert result + [] == result;
        var record := records[i];
        var sqliteNeedsUpdate := false;
        if database.Some? && record.meta.id in database.value.rows {
          var row := database.value.rows[record.meta.id];
          if row.provider.None? {
            return None;
          }
          var sqliteCwd := if HasCwd(database.value.columns) then row.cwd else None;
          sqliteNeedsUpdate := row.provider != Some(provider) || Mismatch(record.meta.cwd, sqliteCwd);
        }
        if record.needsUpdate || sqliteNeedsUpdate {
          result := result + [record];
        }
        i := i + 1;
      }
      assert records[..i] == records;
      return Some(result);
    }

    /** backup_rollouts. */
    method BackupRollouts(changes: seq<Item>, faults: Faults) returns (backup: Option<Files>)
      ensures backup == Backup(files, changes, |changes|, faults.copyAt)
    {
      var copies: Files := map[];
      var i := 0;
      while i < |changes|
        invariant 0 <= i <= |changes| && Backup(files, changes, i, faults.copyAt) == Some(copies)
      {
        var path := changes[i].path;
        BackupFails(files, changes, i + 1, faults.copyAt);
        if faults.copyAt == Some(i) || path !in files {
          return None;
        }
        copies := copies[path := files[path]];
        i := i + 1;
      }
      return Some(copies);
    }

    /** apply_repair: the table changes at the commit, after all files. */
    method ApplyRepair(changes: seq<Item>, provider: string, faults: Faults)
      returns (ok: bool, filesUpdated: nat, rowsUpdated: nat)
      modifies this
      ensures Applied(ok, Value(), filesUpdated, rowsUpdated) == Apply(old(Value()), changes, provider, faults)
    {
      hide UpdateRow, HasCwd;
      filesUpdated, rowsUpdated := 0, 0;
      if database.Some? && (faults.busy || "model_provider" !in faults.columns) {
        return false, 0, 0;
      }
      var i := 0;
      while i < |changes|
        invariant 0 <= i <= |changes| && database == old(database)
        invariant Replace(old(files), changes, i, faults.replaceAt) == Replaced(true, files, filesUpdated)
      {
        if changes[i].needsUpdate {
          if faults.replaceAt == Some(i) {
            ReplaceFails(old(files), changes, i + 1, |changes|, faults.replaceAt);
            return false, 0, 0;
          }
          files := files[changes[i].path := changes[i].updated];
          filesUpdated := filesUpdated + 1;
        }
        i := i + 1;
      }
      if database.Some? {
        var rows := database.value.rows;
        var hasCwd := HasCwd(faults.columns);
        i := 0;
        while i < |changes|
          invariant 0 <= i <= |changes|
          invariant Update(database.value.rows, hasCwd, changes, i, provider, faults.updateAt)
                 == Updated(true, rows, rowsUpdated)
        {
          if faults.updateAt == Some(i) {
            UpdateFails(database.value.rows, hasCwd, changes, i + 1, |changes|, provider, faults.updateAt);
            return false, 0, 0;
          }
          var id := changes[i].meta.id;
          if id in rows {
            rows := rows[id := UpdateRow(rows[id], hasCwd, changes[i], provider)];
            rowsUpdated := rowsUpdated + 1;
          }
          i := i + 1;
        }
        if faults.commit {
          return false, 0, 0;
        }
        database := Some(database.value.(rows := rows));
      }
      return true, filesUpdated, rowsUpdated;
    }

    /** restore_rollouts. */
    method RestoreRollouts(backup: Files, changes: seq<Item>, faults: Faults) returns (ok: bool)
      modifies this
      ensures database == old(database)
      ensures var r := Restore(old(files), backup, changes, |changes|, faults.restoreAt);
              ok == r.ok && files == r.files
    {
      var i := 0;
      while i < |changes|
        invariant 0 <= i <= |changes| && database == old(database)
        invariant Restore(old(files), backup, changes, i, faults.restoreAt) == Replaced(true, files, i)
      {
        var path := changes[i].path;
        if faults.restoreAt == Some(i) || path !in backup {
          RestoreFails(old(files), backup, changes, i + 1, |changes|, faults.restoreAt);
          return false;
        }
        files := files[path := backup[path]];
        i := i + 1;
      }
      return true;
    }

    /** repair_local. */
    method RepairLocal(c: Codec, listing: seq<Path>, provider: string, faults: Faults) returns (outcome: Outcome)
      modifies this
      ensures outcome == Run(c, old(Value()), listing, provider, faults) && Value() == outcome.home
    {
      hide Scan, Collect, Backup, Apply, Restore;
      var records := ScanRollouts(c, provider, listing);
      if records.None? {
        return Failed(Value());
      }
      var changes := CollectRepairChanges(records.value, provider);
      if changes.None? {
        return Failed(Value());
      }
      if changes.value == [] {
        return Repaired(Value(), 0, 0, None);
      }
      var backup := BackupRollouts(changes.value, faults);
      if backup.None? || (database.Some? && faults.snapshot) {
        return Failed(Value());
      }
      var ok, filesUpdated, rowsUpdated := ApplyRepair(changes.value, provider, faults);
      if ok {
        return Repaired(Value(), filesUpdated, rowsUpdated, backup);
      }
      var restored := RestoreRollouts(backup.value, changes.value, faults);
      return if restored then Failed(Value()) else NotRestored(Value());
    }
  }

  // Once a step has failed, the later ones change nothing.

  lemma {:induction false} ScanFails(c: Codec, provider: string, files: Files, listing: seq<Path>, n: nat)
    requires n <= |listing|
    ensures Scan(c, provider, files, listing[..n]).None? ==> Scan(c, provider, files, listing).None?
    decreases |listing| - n
  {
    hide Inspect;
    if n < |listing| {
      assert listing[..n + 1][..n] == listing[..n];
      ScanFails(c, provider, files, listing, n + 1);
    } else {
      assert listing[..n] == listing;
    }
  }

  lemma {:induction false} CollectFails(db: Option<Database>, items: seq<Item>, n: nat, provider: string)
    requires n <= |items|
    ensures CollectFrom(db, items[..n], provider).None? ==> CollectFrom(db, items, provider).None?
    decreases |items| - n
  {
    hide Needs, BadRow;
    if n < |items| {
      assert items[..n + 1][..n] == items[..n];
      CollectFails(db, items, n + 1, provider);
    } else {
      assert items[..n] == items;
    }
  }

  lemma {:induction false} BackupFails(files: Files, changes: seq<Item>, n: nat, failsAt: Option<nat>)
    requires n <= |changes|
    ensures Backup(files, changes, n, failsAt).None? ==> Backup(files, changes, |changes|, failsAt).None?
    decreases |changes| - n
  {
    if n < |changes| {
      BackupFails(files, changes, n + 1, failsAt);
    }
  }

  lemma {:induction false} ReplaceFails(files: Files, changes: seq<Item>, n: nat, m: nat, failsAt: Option<nat>)
    requires n <= m <= |changes| && !Replace(files, changes, n, failsAt).ok
    ensures Replace(files, changes, m, failsAt) == Replace(files, changes, n, failsAt)
  {
    if n < m {
      ReplaceFails(files, changes, n, m - 1, failsAt);
    }
  }

  lemma {:induction false} UpdateFails(rows: map<string, Row>, hasCwd: bool, changes: seq<Item>, n: nat, m: nat,
                                       provider: string, failsAt: Option<nat>)
    requires n <= m <= |changes| && !Update(rows, hasCwd, changes, n, provider, failsAt).ok
    ensures !Update(rows, hasCwd, changes, m, provider, failsAt).ok
  {
    hide UpdateRow;
    if n < m {
      UpdateFails(rows, hasCwd, changes, n, m - 1, provider, failsAt);
    }
  }

  lemma {:induction false} RestoreFails(files: Files, backup: Files, changes: seq<Item>, n: nat, m: nat, failsAt: Option<nat>)
    requires n <= m <= |changes| && !Restore(files, backup, changes, n, failsAt).ok
    ensures Restore(files, backup, changes, m, failsAt) == Restore(files, backup, changes, n, failsAt)
  {
    if n < m {
      RestoreFails(files, backup, changes, n, m - 1, failsAt);
    }
  }
}
