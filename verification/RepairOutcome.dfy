/** When a repair succeeds, fails, or cannot even be undone, in terms of the files, the rows and what goes wrong. */
module RepairOutcome {
  import opened Wrappers
  import opened Rollout
  import opened Repair

  // ---- What there is to do ------------------------------------------------------------------------------

  ghost predicate AllReadable(c: Codec, provider: string, files: Files, listing: seq<Path>) {
    forall p :: p in listing ==> p in files && Inspect(c, files[p], Some(provider)).Some?
  }

  function MetaAt(c: Codec, provider: string, bytes: string): Meta
    requires Inspect(c, bytes, Some(provider)).Some?
  {
    Inspect(c, bytes, Some(provider)).value.meta
  }

  /** The table has the columns that are read, and the row of every listed thread names a provider. */
  ghost predicate TableReadable(c: Codec, provider: string, home: Home, listing: seq<Path>)
    requires AllReadable(c, provider, home.files, listing)
  {
    home.database.Some? ==>
      && {"id", "model_provider"} <= home.database.value.columns
      && forall p :: p in listing ==>
           var id := MetaAt(c, provider, home.files[p]).id;
           id in home.database.value.rows ==> home.database.value.rows[id].provider.Some?
  }

  /** The rollout names another provider, or none. */
  predicate FileNeeds(meta: Meta, provider: string) {
    meta.provider.None? || meta.provider.value != provider
  }

  /** The row of the thread names another provider, or a working directory other than the rollout's. */
  predicate RowDisagrees(db: Option<Database>, meta: Meta, provider: string) {
    && db.Some? && meta.id in db.value.rows
    && var row := db.value.rows[meta.id];
      || row.provider.None? || row.provider.value != provider
      || ("cwd" in db.value.columns && row.cwd.Some? && meta.cwd.Some? && row.cwd.value != meta.cwd.value)
  }

  /** The listed rollouts that the repair works on, in order. */
  ghost function Todo(c: Codec, provider: string, home: Home, listing: seq<Path>): (r: seq<Path>)
    requires AllReadable(c, provider, home.files, listing)
    ensures forall p :: p in r ==> p in listing
  {
    if listing == [] then []
    else
      var last := listing[|listing| - 1];
      var meta := MetaAt(c, provider, home.files[last]);
      Todo(c, provider, home, listing[..|listing| - 1])
        + (if FileNeeds(meta, provider) || RowDisagrees(home.database, meta, provider) then [last] else [])
  }

  predicate Hits(at: Option<nat>, n: nat) {
    at.Some? && at.value < n
  }

  /** A copy, or the copy of the database, fails. */
  predicate BackupFails(home: Home, faults: Faults, n: nat) {
    Hits(faults.copyAt, n) || (home.database.Some? && faults.snapshot)
  }

  /** The database is busy or has lost its column, a file that needs it cannot be replaced, a row update fails, or the
      transaction does not commit. */
  ghost predicate ApplyFails(c: Codec, provider: string, home: Home, todo: seq<Path>, faults: Faults)
    requires AllReadable(c, provider, home.files, todo)
  {
    || (Hits(faults.replaceAt, |todo|) && FileNeeds(MetaAt(c, provider, home.files[todo[faults.replaceAt.value]]), provider))
    || (home.database.Some?
        && (faults.busy || "model_provider" !in faults.columns || Hits(faults.updateAt, |todo|) || faults.commit))
  }

  // ---- The lists --------------------------------------------------------------------------------------------

  /** The changes are the items of todo, one for one. */
  ghost predicate Matches(c: Codec, provider: string, home: Home, changes: seq<Item>, todo: seq<Path>)
    requires AllReadable(c, provider, home.files, todo)
  {
    && |changes| == |todo|
    && forall i :: 0 <= i < |todo| ==>
         && changes[i].path == todo[i] && changes[i].meta == MetaAt(c, provider, home.files[todo[i]])
         && changes[i].needsUpdate == FileNeeds(changes[i].meta, provider)
  }

  lemma NeedsExactly(db: Option<Database>, meta: Meta, provider: string)
    ensures forall item: Item :: item.meta == meta && item.needsUpdate == FileNeeds(meta, provider) ==>
              (Needs(db, item, provider) <==> FileNeeds(meta, provider) || RowDisagrees(db, meta, provider))
  {
  }

  lemma {:induction false} ChangesAreTodo(c: Codec, provider: string, home: Home, listing: seq<Path>)
    requires AllReadable(c, provider, home.files, listing)
    ensures Scan(c, provider, home.files, listing).Some?
    ensures var changes := CollectFrom(home.database, Scan(c, provider, home.files, listing).value, provider);
            && (changes.Some? <==> forall p :: p in listing ==>
                  var id := MetaAt(c, provider, home.files[p]).id;
                  home.database.Some? && id in home.database.value.rows ==> home.database.value.rows[id].provider.Some?)
            && (changes.Some? ==> Matches(c, provider, home, changes.value, Todo(c, provider, home, listing)))
  {
    hide Inspect, Needs, RowDisagrees;
    if listing != [] {
      var n := |listing| - 1;
      NeedsExactly(home.database, MetaAt(c, provider, home.files[listing[n]]), provider);
      ChangesAreTodo(c, provider, home, listing[..n]);
      var before := Scan(c, provider, home.files, listing[..n]).value;
      var items := Scan(c, provider, home.files, listing).value;
      assert items[..|items| - 1] == before;
      assert forall p :: p in listing <==> p in listing[..n] || p == listing[n];
    }
  }

  // ---- The steps ----------------------------------------------------------------------------------------------

  lemma {:induction false} BackupExactly(files: Files, changes: seq<Item>, n: nat, failsAt: Option<nat>)
    requires n <= |changes| && Present(files, changes)
    ensures Backup(files, changes, n, failsAt).Some? <==> !Hits(failsAt, n)
  {
    if n > 0 {
      BackupExactly(files, changes, n - 1, failsAt);
    }
  }

  lemma {:induction false} ReplaceExactly(files: Files, changes: seq<Item>, n: nat, failsAt: Option<nat>)
    requires n <= |changes|
    ensures Replace(files, changes, n, failsAt).ok <==> !(Hits(failsAt, n) && changes[failsAt.value].needsUpdate)
  {
    if n > 0 {
      ReplaceExactly(files, changes, n - 1, failsAt);
    }
  }

  lemma {:induction false} UpdateExactly(rows: map<string, Row>, hasCwd: bool, changes: seq<Item>, n: nat, provider: string,
                                         failsAt: Option<nat>)
    requires n <= |changes|
    ensures Update(rows, hasCwd, changes, n, provider, failsAt).ok <==> !Hits(failsAt, n)
  {
    hide UpdateRow;
    if n > 0 {
      UpdateExactly(rows, hasCwd, changes, n - 1, provider, failsAt);
    }
  }

  lemma {:induction false} RestoreExactly(files: Files, backup: Files, changes: seq<Item>, n: nat, failsAt: Option<nat>)
    requires n <= |changes| && forall i :: 0 <= i < |changes| ==> changes[i].path in backup
    ensures Restore(files, backup, changes, n, failsAt).ok <==> !Hits(failsAt, n)
  {
    if n > 0 {
      RestoreExactly(files, backup, changes, n - 1, failsAt);
    }
  }

  lemma ApplyExactly(c: Codec, provider: string, home: Home, changes: seq<Item>, todo: seq<Path>, faults: Faults)
    requires AllReadable(c, provider, home.files, todo) && Matches(c, provider, home, changes, todo)
    ensures Apply(home, changes, provider, faults).ok <==> !ApplyFails(c, provider, home, todo, faults)
  {
    hide Inspect, Replace, Update;
    ReplaceExactly(home.files, changes, |changes|, faults.replaceAt);
    if home.database.Some? {
      UpdateExactly(home.database.value.rows, HasCwd(faults.columns), changes, |changes|, provider, faults.updateAt);
    }
  }

  lemma CarryExactly(c: Codec, provider: string, home: Home, changes: seq<Item>, todo: seq<Path>, faults: Faults)
    requires AllReadable(c, provider, home.files, todo) && Matches(c, provider, home, changes, todo)
    ensures var o, n := Carry(home, changes, provider, faults), |todo|;
            var failed := BackupFails(home, faults, n) || ApplyFails(c, provider, home, todo, faults);
            && (o.Repaired? <==> !failed)
            && (o.NotRestored? <==> failed && !BackupFails(home, faults, n) && Hits(faults.restoreAt, n))
  {
    hide Inspect, Apply, Backup, Restore, ApplyFails;
    forall i | 0 <= i < |changes| ensures changes[i].path in home.files {
      assert todo[i] in todo;
    }
    BackupExactly(home.files, changes, |changes|, faults.copyAt);
    BackupHolds(home.files, changes, |changes|, faults.copyAt);
    ApplyExactly(c, provider, home, changes, todo, faults);
    var backup := Backup(home.files, changes, |changes|, faults.copyAt);
    if backup.Some? {
      RestoreExactly(Apply(home, changes, provider, faults).home.files, backup.value, changes, |changes|, faults.restoreAt);
    }
  }

  // ---- The outcome ----------------------------------------------------------------------------------------------

  ghost predicate Sound(c: Codec, provider: string, home: Home, listing: seq<Path>) {
    AllReadable(c, provider, home.files, listing) && TableReadable(c, provider, home, listing)
  }

  /** A step of the repair that takes place fails. */
  ghost predicate Disturbed(c: Codec, provider: string, home: Home, listing: seq<Path>, faults: Faults)
    requires AllReadable(c, provider, home.files, listing)
  {
    var todo := Todo(c, provider, home, listing);
    todo != [] && (BackupFails(home, faults, |todo|) || ApplyFails(c, provider, home, todo, faults))
  }

  /** A repair succeeds exactly when every listed rollout and the table can be read, and no step that takes place fails;
      and it leaves things half done exactly when the backup was made, a later step failed, and restoring fails too. */
  lemma OutcomeExactly(c: Codec, home: Home, listing: seq<Path>, provider: string, faults: Faults)
    ensures var o := Run(c, home, listing, provider, faults);
            && (o.Repaired? <==> Sound(c, provider, home, listing) && !Disturbed(c, provider, home, listing, faults))
            && (o.NotRestored? <==>
                  && Sound(c, provider, home, listing) && Disturbed(c, provider, home, listing, faults)
                  && var n := |Todo(c, provider, home, listing)|;
                     !BackupFails(home, faults, n) && Hits(faults.restoreAt, n))
  {
    hide Inspect, Scan, CollectFrom, Carry, ApplyFails, BackupFails;
    ScanItems(c, provider, home.files, listing);
    if AllReadable(c, provider, home.files, listing) {
      ChangesAreTodo(c, provider, home, listing);
      var changes := CollectFrom(home.database, Scan(c, provider, home.files, listing).value, provider);
      if changes.Some? {
        CarryExactly(c, provider, home, changes.value, Todo(c, provider, home, listing), faults);
      }
    }
  }

  lemma {:induction false} BackupPaths(files: Files, changes: seq<Item>, n: nat, failsAt: Option<nat>)
    requires n <= |changes| && Backup(files, changes, n, failsAt).Some?
    ensures forall p :: p in Backup(files, changes, n, failsAt).value <==> exists i :: 0 <= i < n && changes[i].path == p
  {
    if n > 0 {
      BackupPaths(files, changes, n - 1, failsAt);
    }
  }

  /** A repair that succeeds has made a backup exactly when there was something to do, of exactly the rollouts it worked
      on, as they were. */
  lemma BackupExactlyTodo(c: Codec, home: Home, listing: seq<Path>, provider: string, faults: Faults)
    requires Run(c, home, listing, provider, faults).Repaired?
    ensures AllReadable(c, provider, home.files, listing)
    ensures var backup, todo := Run(c, home, listing, provider, faults).backup, Todo(c, provider, home, listing);
            && (backup.Some? <==> todo != [])
            && (backup.Some? ==>
                  && (forall p :: p in backup.value <==> p in todo)
                  && forall p :: p in todo ==> p in home.files && backup.value[p] == home.files[p])
  {
    hide Inspect, Scan, CollectFrom, Apply, Backup, Disturbed;
    OutcomeExactly(c, home, listing, provider, faults);
    ChangesAreTodo(c, provider, home, listing);
    var changes := CollectFrom(home.database, Scan(c, provider, home.files, listing).value, provider).value;
    var todo := Todo(c, provider, home, listing);
    if changes != [] {
      BackupPaths(home.files, changes, |changes|, faults.copyAt);
      BackupHolds(home.files, changes, |changes|, faults.copyAt);
      forall p ensures p in todo <==> exists i :: 0 <= i < |changes| && changes[i].path == p {
        if p in todo {
          var i :| 0 <= i < |todo| && todo[i] == p;
          assert changes[i].path == p;
        }
        if exists i :: 0 <= i < |changes| && changes[i].path == p {
          var i :| 0 <= i < |changes| && changes[i].path == p;
          assert todo[i] == p;
        }
      }
    }
  }

  // ---- The report of rows -----------------------------------------------------------------------------------------

  /** How many of the rollouts have a row. */
  ghost function WithRow(c: Codec, provider: string, home: Home, todo: seq<Path>): nat
    requires AllReadable(c, provider, home.files, todo)
  {
    if todo == [] || home.database.None? then 0
    else
      var last := todo[|todo| - 1];
      WithRow(c, provider, home, todo[..|todo| - 1])
        + (if MetaAt(c, provider, home.files[last]).id in home.database.value.rows then 1 else 0)
  }

  lemma {:induction false} UpdateCounts(c: Codec, provider: string, home: Home, changes: seq<Item>, todo: seq<Path>, n: nat,
                                        hasCwd: bool, failsAt: Option<nat>)
    requires AllReadable(c, provider, home.files, todo) && Matches(c, provider, home, changes, todo) && n <= |changes|
    requires home.database.Some? && Update(home.database.value.rows, hasCwd, changes, n, provider, failsAt).ok
    ensures var r := Update(home.database.value.rows, hasCwd, changes, n, provider, failsAt);
            r.rows.Keys == home.database.value.rows.Keys && r.count == WithRow(c, provider, home, todo[..n])
  {
    hide Inspect, UpdateRow;
    if n > 0 {
      UpdateCounts(c, provider, home, changes, todo, n - 1, hasCwd, failsAt);
      assert todo[..n][..n - 1] == todo[..n - 1];
    }
  }

  /** The reported number of updated rows is the number of rollouts worked on whose thread has a row. */
  lemma ReportCountsRows(c: Codec, home: Home, listing: seq<Path>, provider: string, faults: Faults)
    requires Run(c, home, listing, provider, faults).Repaired?
    ensures AllReadable(c, provider, home.files, listing)
    ensures Run(c, home, listing, provider, faults).rowsUpdated == WithRow(c, provider, home, Todo(c, provider, home, listing))
  {
    hide Inspect, Scan, CollectFrom, Update, Replace, Backup, ApplyFails, BackupFails;
    OutcomeExactly(c, home, listing, provider, faults);
    ChangesAreTodo(c, provider, home, listing);
    var changes := CollectFrom(home.database, Scan(c, provider, home.files, listing).value, provider).value;
    var todo := Todo(c, provider, home, listing);
    if home.database.Some? && changes != [] {
      UpdateCounts(c, provider, home, changes, todo, |todo|, HasCwd(faults.columns), faults.updateAt);
      assert todo[..|todo|] == todo;
    }
  }
}
