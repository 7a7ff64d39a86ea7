/** Session import: a merge of staged remote rollouts into the local Codex home that never overwrites. */
module Import {
  import opened Wrappers
  import opened Rollout

  /** A path below the Codex home, by components. */
  type Path = seq<string>

  type Files = map<Path, string>

  const DIRECTORIES: set<string> := {"sessions", "archived_sessions"}

  // ---- Which paths are rollouts ---------------------------------------------------------------

  predicate Normal(component: string) {
    component != "" && component != "." && component != ".." && '/' !in component
  }

  predicate StartsWith(name: string, prefix: string) {
    prefix <= name
  }

  predicate EndsWith(name: string, suffix: string) {
    |suffix| <= |name| && name[|name| - |suffix|..] == suffix
  }

  function Lower(ch: char): char {
    if 'A' <= ch <= 'Z' then (ch as int + 32) as char else ch
  }

  predicate EqualIgnoringCase(a: string, b: string) {
    |a| == |b| && forall i :: 0 <= i < |a| ==> Lower(a[i]) == Lower(b[i])
  }

  function AfterLastDot(name: string): Option<string> {
    if name == [] then None
    else
      var later := AfterLastDot(name[1..]);
      if later.Some? then later
      else if name[0] == '.' then Some(name[1..])
      else None
  }

  /** Path::extension: a leading dot alone does not start one. */
  function Extension(name: string): Option<string> {
    var after := AfterLastDot(name);
    if after.Some? && |after.value| + 1 < |name| then after else None
  }

  function Name(path: Path): string {
    if path == [] then "" else path[|path| - 1]
  }

  /** validate_rollout_path: what the remote archive may contain. */
  predicate ValidRolloutPath(path: Path) {
    && path != []
    && (forall i :: 0 <= i < |path| ==> Normal(path[i]))
    && path[0] in DIRECTORIES
    && StartsWith(Name(path), "rollout-")
    && Extension(Name(path)).Some?
    && EqualIgnoringCase(Extension(Name(path)).value, "jsonl")
  }

  /** collect_rollouts: what the local indexer sees. */
  predicate Indexed(path: Path) {
    && |path| >= 2
    && path[0] in DIRECTORIES
    && StartsWith(Name(path), "rollout-")
    && EndsWith(Name(path), ".jsonl")
  }

  lemma {:induction false} AfterLastDotIs(name: string, e: string)
    ensures AfterLastDot(name) == Some(e) <==> '.' !in e && EndsWith(name, "." + e)
    ensures AfterLastDot(name).None? <==> '.' !in name
  {
    if name != [] {
      var rest := name[1..];
      AfterLastDotIs(rest, e);
      if |e| < |rest| {
        assert name[|name| - |e| - 1..] == rest[|rest| - |e| - 1..];
      } else if |e| == |rest| {
        assert name[0..] == name && (name == "." + e <==> name[0] == '.' && rest == e);
        assert !EndsWith(rest, "." + e);
        if AfterLastDot(rest).Some? {
          AfterLastDotIs(rest, AfterLastDot(rest).value);
        }
      }
    }
  }

  /** The extension is what follows the last dot, unless that dot is the first character. */
  lemma ExtensionExactly(name: string, e: string)
    ensures Extension(name) == Some(e) <==> '.' !in e && EndsWith(name, "." + e) && |e| + 1 < |name|
  {
    hide AfterLastDot;
    AfterLastDotIs(name, e);
  }

  lemma JsonlExactly(name: string)
    requires StartsWith(name, "rollout-")
    ensures EndsWith(name, ".jsonl") <==> Extension(name) == Some("jsonl")
  {
    hide Extension;
    ExtensionExactly(name, "jsonl");
    assert "." + "jsonl" == ".jsonl";
  }

  lemma OneComponentIsNoRollout(name: string)
    requires name in DIRECTORIES
    ensures !StartsWith(name, "rollout-")
  {
    assert "rollout-"[0] == 'r';
    assert name[0] != 'r';
  }

  /** e is "jsonl" in any mixture of cases. */
  predicate Spells(e: string) {
    |e| == 5 && e[0] in "jJ" && e[1] in "sS" && e[2] in "oO" && e[3] in "nN" && e[4] in "lL"
  }

  lemma SpellsExactly(e: string)
    ensures EqualIgnoringCase(e, "jsonl") <==> Spells(e)
  {
    if |e| == 5 {
      assert "jsonl"[0] == 'j' && "jsonl"[1] == 's' && "jsonl"[2] == 'o' && "jsonl"[3] == 'n' && "jsonl"[4] == 'l';
    }
  }

  /** What a remote archive may hold: a path below one of the two session directories, without empty, dot or dot-dot
      components, to a file named rollout-, something, and the extension in any case. */
  lemma ValidExactly(path: Path)
    ensures ValidRolloutPath(path) <==>
              && path != [] && path[0] in {"sessions", "archived_sessions"}
              && (forall i :: 0 <= i < |path| ==> path[i] !in {"", ".", ".."} && '/' !in path[i])
              && exists stem, e :: path[|path| - 1] == "rollout-" + stem + "." + e && Spells(e)
  {
    hide Lower, AfterLastDot, EqualIgnoringCase, Spells;
    if path != [] {
      var name := path[|path| - 1];
      assert forall i :: 0 <= i < |path| ==> (Normal(path[i]) <==> path[i] !in {"", ".", ".."} && '/' !in path[i]);
      NameExactly(name);
    }
  }

  lemma NameExactly(name: string)
    ensures StartsWith(name, "rollout-") && Extension(name).Some? && EqualIgnoringCase(Extension(name).value, "jsonl")
            <==> exists stem, e :: name == "rollout-" + stem + "." + e && Spells(e)
  {
    hide Lower, AfterLastDot, EqualIgnoringCase, Spells;
    if StartsWith(name, "rollout-") && Extension(name).Some? && EqualIgnoringCase(Extension(name).value, "jsonl") {
      var e := Extension(name).value;
      AfterLastDotIs(name, e);
      SpellsExactly(e);
      Stem(name, e);
    }
    forall stem, e | name == "rollout-" + stem + "." + e && Spells(e)
      ensures StartsWith(name, "rollout-") && Extension(name) == Some(e) && EqualIgnoringCase(e, "jsonl")
    {
      SpellsExactly(e);
      NoDot(e);
      assert name[..8] == "rollout-";
      assert name[|name| - |e| - 1..] == "." + e;
      AfterLastDotIs(name, e);
    }
  }

  lemma NoDot(e: string)
    requires Spells(e)
    ensures '.' !in e
  {
  }

  lemma Stem(name: string, e: string)
    requires StartsWith(name, "rollout-") && EndsWith(name, "." + e) && Spells(e)
    ensures exists stem :: name == "rollout-" + stem + "." + e
  {
    var at := |name| - |e| - 1;
    assert |"rollout-"| == 8 && "rollout-"[7] == '-' ;
    assert name[at] == ("." + e)[0] == '.';
    assert forall i :: 0 <= i < 8 ==> name[i] == "rollout-"[i] && name[i] != '.';
    assert name == name[..8] + name[8..at] + name[at..];
    assert name == "rollout-" + name[8..at] + "." + e;
  }

  /** The indexer accepts exactly those valid paths whose extension is in lower case. */
  lemma IndexedExactly(path: Path)
    requires forall i :: 0 <= i < |path| ==> Normal(path[i])
    ensures Indexed(path) <==> ValidRolloutPath(path) && Extension(Name(path)) == Some("jsonl")
  {
    hide Normal, StartsWith, EndsWith, Extension, Lower;
    if path != [] && path[0] in DIRECTORIES {
      OneComponentIsNoRollout(path[0]);
      if StartsWith(Name(path), "rollout-") {
        JsonlExactly(Name(path));
      }
    }
  }

  /** Every other spelling of the extension makes a path that may be imported but is never indexed. */
  lemma OtherSpellingsAreNotIndexed(directory: string, stem: string, e: string)
    requires directory in DIRECTORIES && Normal(directory) && '/' !in stem
    requires EqualIgnoringCase(e, "jsonl") && e != "jsonl" && '.' !in e && '/' !in e
    ensures var path := [directory, "rollout-" + stem + "." + e]; ValidRolloutPath(path) && !Indexed(path)
  {
    hide Lower, AfterLastDot;
    var name := "rollout-" + stem + "." + e;
    assert name[|name| - |e| - 1..] == "." + e;
    AfterLastDotIs(name, e);
    assert name[..8] == "rollout-";
    assert name[0] == 'r';
    JsonlExactly(name);
  }

  // ---- The merge -----------------------------------------------------------------------------

  datatype Report = Report(remoteFiles: nat, imported: nat, duplicates: nat, conflicts: nat, encrypted: nat)

  /** What an import works with: the staged files, the places where something that is not one of the
      files already exists, and those where writing fails. */
  datatype Job = Job(codec: Codec, provider: string, staged: Files, occupied: set<Path>, blocked: set<Path>)

  datatype State = State(files: Files, localIds: map<string, Path>, incoming: set<string>, report: Report)

  datatype Outcome = Outcome(ok: bool, state: State)

  function Id(c: Codec, bytes: string): Option<string> {
    var seen := Inspect(c, bytes, None);
    if seen.Some? then Some(seen.value.meta.id) else None
  }

  /** index_local_sessions from a point of the listing on; None is its error. */
  function IndexFrom(c: Codec, files: Files, listing: seq<Path>, known: map<string, Path>): Option<map<string, Path>> {
    if listing == [] then Some(known)
    else
      var id := if listing[0] in files then Id(c, files[listing[0]]) else None;
      if id.None? then None
      else IndexFrom(c, files, listing[1..], if id.value in known then known else known[id.value := listing[0]])
  }

  /** The listing of the local rollouts, in any order. */
  ghost predicate Lists(listing: seq<Path>, files: Files) {
    forall p :: p in listing <==> p in files && Indexed(p)
  }

  /** One remote file. */
  function Take(job: Job, st: State, path: Path): Outcome {
    if path !in job.staged then Outcome(false, st)
    else
      var seen := Inspect(job.codec, job.staged[path], Some(job.provider));
      if seen.None? then Outcome(false, st)
      else
        var id := seen.value.meta.id;
        var report := if seen.value.meta.encrypted then st.report.(encrypted := st.report.encrypted + 1) else st.report;
        var next := st.(incoming := st.incoming + {id}, report := report);
        if id in st.incoming || id in st.localIds then
          Outcome(true, next.(report := report.(duplicates := report.duplicates + 1)))
        else if path in st.files || path in job.occupied then
          Outcome(true, next.(report := report.(conflicts := report.conflicts + 1)))
        else if path in job.blocked then Outcome(false, next)
        else
          Outcome(true, next.(files := st.files[path := seen.value.updated],
                              localIds := st.localIds[id := path],
                              report := report.(imported := report.imported + 1)))
  }

  function TakeAll(job: Job, st: State, remote: seq<Path>): Outcome
    decreases remote
  {
    if remote == [] then Outcome(true, st)
    else
      var one := Take(job, st, remote[0]);
      if one.ok then TakeAll(job, one.state, remote[1..]) else one
  }

  function Start(files: Files, index: map<string, Path>, remote: seq<Path>): State {
    State(files, index, {}, Report(|remote|, 0, 0, 0, 0))
  }

  /** import_staged_rollouts. */
  function Import(job: Job, files: Files, listing: seq<Path>, remote: seq<Path>): Outcome {
    var index := IndexFrom(job.codec, files, listing, map[]);
    if index.None? then Outcome(false, Start(files, map[], remote))
    else TakeAll(job, Start(files, index.value, remote), remote)
  }

  // ---- Conservation and no overwriting ---------------------------------------------------------

  predicate Extends(before: Files, after: Files) {
    forall p :: p in before ==> p in after && after[p] == before[p]
  }

  function Counted(r: Report): nat {
    r.imported + r.duplicates + r.conflicts
  }

  lemma TakeConserves(job: Job, st: State, path: Path)
    ensures var o := Take(job, st, path);
            && Extends(st.files, o.state.files)
            && |o.state.files| - |st.files| == o.state.report.imported - st.report.imported
            && o.state.report.remoteFiles == st.report.remoteFiles
            && (o.ok ==> Counted(o.state.report) == Counted(st.report) + 1)
  {
    hide Inspect;
  }

  lemma {:induction false} TakeAllConserves(job: Job, st: State, remote: seq<Path>)
    ensures var o := TakeAll(job, st, remote);
            && Extends(st.files, o.state.files)
            && |o.state.files| - |st.files| == o.state.report.imported - st.report.imported
            && o.state.report.remoteFiles == st.report.remoteFiles
            && (o.ok ==> Counted(o.state.report) == Counted(st.report) + |remote|)
    decreases remote
  {
    hide Take, Counted;
    if remote != [] {
      var one := Take(job, st, remote[0]);
      TakeConserves(job, st, remote[0]);
      if one.ok {
        TakeAllConserves(job, one.state, remote[1..]);
      }
    }
  }

  /** On success every remote file was imported, a duplicate or a conflict; whatever happens, every file
      that was there before keeps its contents, and there are as many new files as were imported. */
  lemma ImportConserves(job: Job, files: Files, listing: seq<Path>, remote: seq<Path>)
    requires Lists(listing, files)
    ensures var o := Import(job, files, listing, remote);
            && (o.ok ==> Counted(o.state.report) == |remote| == o.state.report.remoteFiles)
            && Extends(files, o.state.files)
            && |o.state.files| == |files| + o.state.report.imported
  {
    hide TakeAll;
    var index := IndexFrom(job.codec, files, listing, map[]);
    if index.Some? {
      TakeAllConserves(job, Start(files, index.value, remote), remote);
    }
  }

  // ---- What the report counts ------------------------------------------------------------------

  function Encrypted(job: Job, remote: seq<Path>): nat {
    if remote == [] then 0
    else
      var seen := if remote[0] in job.staged then Inspect(job.codec, job.staged[remote[0]], Some(job.provider)) else None;
      (if seen.Some? && seen.value.meta.encrypted then 1 else 0) + Encrypted(job, remote[1..])
  }

  lemma {:induction false} EncryptedCounted(job: Job, st: State, remote: seq<Path>)
    requires TakeAll(job, st, remote).ok
    ensures TakeAll(job, st, remote).state.report.encrypted == st.report.encrypted + Encrypted(job, remote)
    decreases remote
  {
    hide Inspect;
    if remote != [] {
      EncryptedCounted(job, Take(job, st, remote[0]).state, remote[1..]);
    }
  }

  predicate DistinctPaths(remote: seq<Path>) {
    forall i, j :: 0 <= i < j < |remote| ==> remote[i] != remote[j]
  }

  /** Only a path that already exists, locally or earlier in the same list, counts as a conflict. */
  lemma {:induction false} ConflictsNeedExistingPath(job: Job, st: State, remote: seq<Path>)
    requires DistinctPaths(remote)
    requires forall p :: p in remote ==> p !in st.files && p !in job.occupied
    ensures TakeAll(job, st, remote).state.report.conflicts == st.report.conflicts
    decreases remote
  {
    hide Inspect;
    if remote != [] {
      var one := Take(job, st, remote[0]);
      assert forall p :: p in remote[1..] ==> p in remote && p != remote[0];
      assert one.state.report.conflicts == st.report.conflicts;
      if one.ok {
        ConflictsNeedExistingPath(job, one.state, remote[1..]);
      }
    }
  }

  /** The thread of a staged file. */
  function StagedId(job: Job, path: Path): Option<string> {
    if path !in job.staged then None
    else
      var seen := Inspect(job.codec, job.staged[path], Some(job.provider));
      if seen.None? then None else Some(seen.value.meta.id)
  }

  /** Only a thread that is already known, locally or from earlier in the same list, counts as a duplicate. */
  lemma {:induction false} DuplicatesNeedKnownThread(job: Job, st: State, remote: seq<Path>)
    requires forall i, j :: 0 <= i < j < |remote| && StagedId(job, remote[i]).Some? ==>
               StagedId(job, remote[i]) != StagedId(job, remote[j])
    requires forall p :: p in remote && StagedId(job, p).Some? ==>
               StagedId(job, p).value !in st.localIds && StagedId(job, p).value !in st.incoming
    ensures TakeAll(job, st, remote).state.report.duplicates == st.report.duplicates
    decreases remote
  {
    hide Inspect;
    if remote != [] {
      var one := Take(job, st, remote[0]);
      assert remote[0] in remote;
      assert one.state.report.duplicates == st.report.duplicates;
      if one.ok {
        forall p | p in remote[1..] && StagedId(job, p).Some?
          ensures StagedId(job, p).value !in one.state.localIds && StagedId(job, p).value !in one.state.incoming
        {
          var i :| 0 <= i < |remote[1..]| && remote[1..][i] == p;
          assert remote[i + 1] == p && p in remote;
          assert StagedId(job, remote[0]) != StagedId(job, remote[i + 1]);
        }
        DuplicatesNeedKnownThread(job, one.state, remote[1..]);
      }
    }
  }

  // ---- Identities ------------------------------------------------------------------------------

  predicate At(c: Codec, files: Files, id: string, p: Path) {
    p in files && Indexed(p) && Id(c, files[p]) == Some(id)
  }

  /** The indexer finds this thread. */
  ghost predicate Found(c: Codec, files: Files, id: string) {
    exists p :: At(c, files, id, p)
  }

  ghost predicate Readable(c: Codec, files: Files) {
    forall p :: p in files && Indexed(p) ==> Id(c, files[p]).Some?
  }

  ghost predicate DistinctIds(c: Codec, files: Files) {
    forall id, p, q :: At(c, files, id, p) && At(c, files, id, q) ==> p == q
  }

  lemma {:induction false} IndexFromIds(c: Codec, files: Files, listing: seq<Path>, known: map<string, Path>)
    requires forall p :: p in listing ==> p in files
    ensures var index := IndexFrom(c, files, listing, known);
            && (index.Some? <==> forall p :: p in listing ==> Id(c, files[p]).Some?)
            && (index.Some? ==>
                  forall id :: id in index.value <==>
                    id in known || exists p :: p in listing && Id(c, files[p]) == Some(id))
  {
    hide Id;
    if listing != [] {
      var id := Id(c, files[listing[0]]);
      assert forall p :: p in listing <==> p == listing[0] || p in listing[1..];
      if id.Some? {
        IndexFromIds(c, files, listing[1..], if id.value in known then known else known[id.value := listing[0]]);
      }
    }
  }

  /** The index holds exactly the threads of the rollouts the indexer sees, and exists when all are readable. */
  lemma IndexHoldsFound(c: Codec, files: Files, listing: seq<Path>)
    requires Lists(listing, files)
    ensures var index := IndexFrom(c, files, listing, map[]);
            && (index.Some? <==> Readable(c, files))
            && (index.Some? ==> forall id :: id in index.value <==> Found(c, files, id))
  {
    hide Id, IndexFrom, Indexed;
    IndexFromIds(c, files, listing, map[]);
    var index := IndexFrom(c, files, listing, map[]);
    if index.Some? {
      forall id ensures id in index.value <==> Found(c, files, id) {
        if id in index.value {
          var p :| p in listing && Id(c, files[p]) == Some(id);
          assert At(c, files, id, p);
        }
        if Found(c, files, id) {
          var p :| At(c, files, id, p);
          assert p in listing;
        }
      }
    }
  }

  /** What is known of the threads at the head of the loop: all that can be found, and no more than those
      and the ones already met in this import. */
  ghost predicate Tracks(c: Codec, st: State) {
    && (forall id :: Found(c, st.files, id) ==> id in st.localIds)
    && (forall id :: id in st.localIds ==> Found(c, st.files, id) || id in st.incoming)
  }

  lemma RewrittenId(c: Codec, bytes: string, provider: string)
    requires Lawful(c) && Inspect(c, bytes, Some(provider)).Some?
    ensures var seen := Inspect(c, bytes, Some(provider)).value;
            Id(c, seen.updated) == Some(seen.meta.id) == Id(c, bytes)
  {
    hide Inspect;
    RewriteAligns(c, bytes, provider);
    MetaIgnoresTarget(c, bytes, provider);
    MetaIgnoresTarget(c, Inspect(c, bytes, Some(provider)).value.updated, provider);
  }

  /** Adding a file at a new path under a new thread. */
  lemma AddsOne(c: Codec, files: Files, path: Path, bytes: string, id: string)
    requires path !in files && Id(c, bytes) == Some(id) && !Found(c, files, id)
    ensures var after := files[path := bytes];
            && (forall other :: Found(c, after, other) <==>
                                  Found(c, files, other) || (other == id && Indexed(path)))
            && (DistinctIds(c, files) ==> DistinctIds(c, after))
            && (Readable(c, files) ==> Readable(c, after))
  {
    hide Id, Indexed;
    var after := files[path := bytes];
    forall other
      ensures Found(c, after, other) <==> Found(c, files, other) || (other == id && Indexed(path))
    {
      if Found(c, files, other) {
        var p :| At(c, files, other, p);
        assert At(c, after, other, p);
      }
      if other == id && Indexed(path) {
        assert At(c, after, other, path);
      }
      if Found(c, after, other) {
        var p :| At(c, after, other, p);
        assert p == path || At(c, files, other, p);
      }
    }
    if DistinctIds(c, files) {
      forall other, p, q | At(c, after, other, p) && At(c, after, other, q)
        ensures p == q
      {
        assert p == path || At(c, files, other, p);
        assert q == path || At(c, files, other, q);
      }
    }
  }

  lemma TakeTracks(job: Job, st: State, path: Path)
    requires Lawful(job.codec) && Tracks(job.codec, st)
    ensures var o := Take(job, st, path);
            && Tracks(job.codec, o.state)
            && (DistinctIds(job.codec, st.files) ==> DistinctIds(job.codec, o.state.files))
            && (Readable(job.codec, st.files) ==> Readable(job.codec, o.state.files))
  {
    hide Inspect, Id, Indexed, DistinctIds, Readable, Found;
    var o := Take(job, st, path);
    if o.state.files != st.files {
      var seen := Inspect(job.codec, job.staged[path], Some(job.provider)).value;
      RewrittenId(job.codec, job.staged[path], job.provider);
      AddsOne(job.codec, st.files, path, seen.updated, seen.meta.id);
    }
  }

  lemma {:induction false} TakeAllTracks(job: Job, st: State, remote: seq<Path>)
    requires Lawful(job.codec) && Tracks(job.codec, st)
    ensures var o := TakeAll(job, st, remote);
            && Tracks(job.codec, o.state)
            && (DistinctIds(job.codec, st.files) ==> DistinctIds(job.codec, o.state.files))
            && (Readable(job.codec, st.files) ==> Readable(job.codec, o.state.files))
    decreases remote
  {
    hide Take, Tracks, DistinctIds, Readable, Lawful;
    if remote != [] {
      TakeTracks(job, st, remote[0]);
      if Take(job, st, remote[0]).ok {
        TakeAllTracks(job, Take(job, st, remote[0]).state, remote[1..]);
      }
    }
  }

  lemma StartTracks(c: Codec, files: Files, listing: seq<Path>, remote: seq<Path>)
    requires Lists(listing, files) && IndexFrom(c, files, listing, map[]).Some?
    ensures Tracks(c, Start(files, IndexFrom(c, files, listing, map[]).value, remote))
    ensures Readable(c, files)
  {
    hide Found, IndexFrom, Lists, Readable;
    IndexHoldsFound(c, files, listing);
  }

  /** If the rollouts the indexer sees belonged to distinct threads, they still do, whatever happens. */
  lemma ImportKeepsIdsDistinct(job: Job, files: Files, listing: seq<Path>, remote: seq<Path>)
    requires Lawful(job.codec) && Lists(listing, files) && DistinctIds(job.codec, files)
    ensures DistinctIds(job.codec, Import(job, files, listing, remote).state.files)
  {
    hide TakeAll, IndexFrom, Lists, DistinctIds, Tracks, Readable, Lawful;
    var index := IndexFrom(job.codec, files, listing, map[]);
    if index.Some? {
      StartTracks(job.codec, files, listing, remote);
      TakeAllTracks(job, Start(files, index.value, remote), remote);
    }
  }

  // ---- New files --------------------------------------------------------------------------------

  /** The file at p was put there by this import: it is the staged file with its provider replaced, of a
      thread that the indexer did not find before. */
  ghost predicate Imported(job: Job, before: Files, after: Files, p: Path) {
    && p in after && p in job.staged && p !in job.occupied
    && Inspect(job.codec, job.staged[p], Some(job.provider)).Some?
    && var seen := Inspect(job.codec, job.staged[p], Some(job.provider)).value;
      && after[p] == seen.updated
      && Id(job.codec, after[p]) == Some(seen.meta.id)
      && Inspect(job.codec, after[p], None).value.meta.provider == Some(job.provider)
      && Tail(after[p]) == Tail(job.staged[p])
      && !Found(job.codec, before, seen.meta.id)
  }

  lemma FoundGrows(c: Codec, before: Files, after: Files, id: string)
    requires Extends(before, after) && Found(c, before, id)
    ensures Found(c, after, id)
  {
    hide Id, Indexed;
    var p :| At(c, before, id, p);
    assert At(c, after, id, p);
  }

  lemma TakeImported(job: Job, st: State, path: Path)
    requires Lawful(job.codec) && Tracks(job.codec, st)
    ensures var after := Take(job, st, path).state.files;
            && Extends(st.files, after)
            && forall p :: p in after && p !in st.files ==> p == path && Imported(job, st.files, after, p)
  {
    hide Inspect, Found, Tail;
    var o := Take(job, st, path);
    if o.state.files != st.files {
      RewrittenId(job.codec, job.staged[path], job.provider);
      RewriteAligns(job.codec, job.staged[path], job.provider);
      var seen := Inspect(job.codec, job.staged[path], Some(job.provider)).value;
      MetaIgnoresTarget(job.codec, seen.updated, job.provider);
    }
  }

  lemma ImportedLater(job: Job, first: Files, before: Files, after: Files, p: Path)
    requires Extends(first, before) && p in after && Imported(job, before, after, p)
    ensures Imported(job, first, after, p)
  {
    hide Inspect, Found, Extends, Tail, Id;
    var seen := Inspect(job.codec, job.staged[p], Some(job.provider)).value;
    if Found(job.codec, first, seen.meta.id) {
      FoundGrows(job.codec, first, before, seen.meta.id);
    }
  }

  lemma {:induction false} TakeAllImported(job: Job, st: State, remote: seq<Path>)
    requires Lawful(job.codec) && Tracks(job.codec, st)
    ensures var after := TakeAll(job, st, remote).state.files;
            && Extends(st.files, after)
            && forall p :: p in after && p !in st.files ==> p in remote && Imported(job, st.files, after, p)
    decreases remote
  {
    hide Take, Tracks, Lawful, Inspect, Found, Tail, Id;
    if remote != [] {
      var one := Take(job, st, remote[0]);
      TakeImported(job, st, remote[0]);
      TakeTracks(job, st, remote[0]);
      if one.ok {
        TakeAllImported(job, one.state, remote[1..]);
        var after := TakeAll(job, st, remote).state.files;
        forall p | p in after && p !in st.files
          ensures p in remote && Imported(job, st.files, after, p)
        {
          if p !in one.state.files {
            ImportedLater(job, st.files, one.state.files, after, p);
          }
        }
      }
    }
  }

  /** Every new file is one of the remote files, rewritten for the local provider and otherwise unchanged,
      of a thread that was not there before. */
  lemma NewFilesAreImports(job: Job, files: Files, listing: seq<Path>, remote: seq<Path>, p: Path)
    requires Lawful(job.codec) && Lists(listing, files)
    requires p in Import(job, files, listing, remote).state.files && p !in files
    ensures p in remote && Imported(job, files, Import(job, files, listing, remote).state.files, p)
  {
    hide TakeAll, IndexFrom, Lists, Tracks, Readable, Lawful, Imported;
    var index := IndexFrom(job.codec, files, listing, map[]);
    if index.Some? {
      StartTracks(job.codec, files, listing, remote);
      TakeAllImported(job, Start(files, index.value, remote), remote);
    }
  }

  // ---- Importing again --------------------------------------------------------------------------

  /** Nothing remains to be done for a file of this thread and path. */
  ghost predicate Settled(job: Job, files: Files, incoming: set<string>, id: string, path: Path) {
    id in incoming || Found(job.codec, files, id) || path in files || path in job.occupied
  }

  ghost predicate AllSettled(job: Job, files: Files, incoming: set<string>, remote: seq<Path>)
    decreases remote
  {
    remote != [] ==>
      && remote[0] in job.staged
      && var seen := Inspect(job.codec, job.staged[remote[0]], Some(job.provider));
        && seen.Some?
        && Settled(job, files, incoming, seen.value.meta.id, remote[0])
        && AllSettled(job, files, incoming + {seen.value.meta.id}, remote[1..])
  }

  lemma TakeSettles(job: Job, st: State, path: Path, final: Files)
    requires Tracks(job.codec, st) && Take(job, st, path).ok
    requires Extends(Take(job, st, path).state.files, final)
    ensures path in job.staged && Inspect(job.codec, job.staged[path], Some(job.provider)).Some?
    ensures var id := Inspect(job.codec, job.staged[path], Some(job.provider)).value.meta.id;
            && Settled(job, final, st.incoming, id, path)
            && Take(job, st, path).state.incoming == st.incoming + {id}
  {
    hide Inspect, Found;
    var id := Inspect(job.codec, job.staged[path], Some(job.provider)).value.meta.id;
    if id !in st.incoming && id in st.localIds {
      FoundGrows(job.codec, st.files, final, id);
    }
  }

  lemma {:induction false} TakeAllSettles(job: Job, st: State, remote: seq<Path>)
    requires Lawful(job.codec) && Tracks(job.codec, st) && TakeAll(job, st, remote).ok
    ensures AllSettled(job, TakeAll(job, st, remote).state.files, st.incoming, remote)
    decreases remote
  {
    hide Take, Tracks, Lawful, Inspect, Found, Settled, Extends;
    if remote != [] {
      var one := Take(job, st, remote[0]);
      TakeTracks(job, st, remote[0]);
      TakeAllConserves(job, one.state, remote[1..]);
      TakeSettles(job, st, remote[0], TakeAll(job, one.state, remote[1..]).state.files);
      TakeAllSettles(job, one.state, remote[1..]);
    }
  }

  lemma {:induction false} SettledTakesNothing(job: Job, st: State, remote: seq<Path>)
    requires AllSettled(job, st.files, st.incoming, remote)
    requires forall id :: Found(job.codec, st.files, id) ==> id in st.localIds
    ensures var o := TakeAll(job, st, remote);
            o.ok && o.state.files == st.files && o.state.report.imported == st.report.imported
    decreases remote
  {
    hide Inspect, Found;
    if remote != [] {
      SettledTakesNothing(job, Take(job, st, remote[0]).state, remote[1..]);
    }
  }

  lemma {:induction false} SettledIgnoresBlocked(job: Job, again: Job, files: Files, incoming: set<string>, remote: seq<Path>)
    requires again == job.(blocked := again.blocked) && AllSettled(job, files, incoming, remote)
    ensures AllSettled(again, files, incoming, remote)
    decreases remote
  {
    hide Inspect, Found;
    if remote != [] {
      var id := Inspect(job.codec, job.staged[remote[0]], Some(job.provider)).value.meta.id;
      SettledIgnoresBlocked(job, again, files, incoming + {id}, remote[1..]);
    }
  }

  /** Repeating a successful import succeeds, imports nothing and changes no file, even where writing would
      now fail. */
  lemma ImportAgainAddsNothing(job: Job, files: Files, listing: seq<Path>, remote: seq<Path>,
                               again: Job, relisting: seq<Path>)
    requires Lawful(job.codec) && Lists(listing, files) && Import(job, files, listing, remote).ok
    requires again == job.(blocked := again.blocked)
    requires Lists(relisting, Import(job, files, listing, remote).state.files)
    ensures var after := Import(job, files, listing, remote).state.files;
            var o := Import(again, after, relisting, remote);
            o.ok && o.state.files == after && o.state.report.imported == 0
  {
    hide TakeAll, IndexFrom, Tracks, Readable, Lawful, AllSettled, Found, Indexed;
    var index := IndexFrom(job.codec, files, listing, map[]).value;
    var start := Start(files, index, remote);
    StartTracks(job.codec, files, listing, remote);
    TakeAllTracks(job, start, remote);
    TakeAllSettles(job, start, remote);
    var after := TakeAll(job, start, remote).state.files;
    IndexHoldsFound(job.codec, after, relisting);
    var reindex := IndexFrom(job.codec, after, relisting, map[]).value;
    SettledIgnoresBlocked(job, again, after, {}, remote);
    SettledTakesNothing(again, Start(after, reindex, remote), remote);
  }

  /** The next index lists an imported thread exactly when the extension of its file is in lower case, so a
      thread imported under another spelling can be imported again under another path. */
  lemma ImportedIsFoundExactly(job: Job, files: Files, listing: seq<Path>, remote: seq<Path>, p: Path)
    requires Lawful(job.codec) && Lists(listing, files) && Import(job, files, listing, remote).ok
    requires forall q :: q in remote ==> ValidRolloutPath(q)
    requires p in Import(job, files, listing, remote).state.files && p !in files
    ensures var after := Import(job, files, listing, remote).state.files;
            var id := Id(job.codec, after[p]);
            && id.Some?
            && (Found(job.codec, after, id.value) <==> Extension(Name(p)) == Some("jsonl"))
  {
    hide TakeAll, IndexFrom, Lists, Tracks, Readable, Lawful, Imported, Found, Indexed, Extension, Name, Inspect, Id;
    var index := IndexFrom(job.codec, files, listing, map[]).value;
    var start := Start(files, index, remote);
    StartTracks(job.codec, files, listing, remote);
    TakeAllImported(job, start, remote);
    TakeAllFindsIndexed(job, start, remote, p);
    IndexedExactly(p);
  }

  lemma {:induction false} TakeAllFindsIndexed(job: Job, st: State, remote: seq<Path>, p: Path)
    requires Lawful(job.codec) && Tracks(job.codec, st)
    requires p in TakeAll(job, st, remote).state.files && p !in st.files
    ensures var after := TakeAll(job, st, remote).state.files;
            var id := Id(job.codec, after[p]);
            id.Some? && (Found(job.codec, after, id.value) <==> Indexed(p))
    decreases remote
  {
    hide Take, Tracks, Lawful, Inspect, Found, Indexed, Id;
    if remote != [] {
      var one := Take(job, st, remote[0]);
      TakeTracks(job, st, remote[0]);
      if !one.ok {
        TakeFindsIndexed(job, st, remote[0], p);
      } else if p !in one.state.files {
        TakeAllFindsIndexed(job, one.state, remote[1..], p);
      } else {
        TakeFindsIndexed(job, st, remote[0], p);
        TakeAllConserves(job, one.state, remote[1..]);
        var id := Id(job.codec, one.state.files[p]).value;
        TakeAllFindsNoMore(job, one.state, remote[1..], id);
      }
    }
  }

  lemma TakeFindsIndexed(job: Job, st: State, path: Path, p: Path)
    requires Lawful(job.codec) && Tracks(job.codec, st)
    requires p in Take(job, st, path).state.files && p !in st.files
    ensures var after := Take(job, st, path).state.files;
            var id := Id(job.codec, after[p]);
            && id.Some?
            && id.value in Take(job, st, path).state.incoming
            && (Found(job.codec, after, id.value) <==> Indexed(p))
  {
    hide Inspect, Found, Indexed, Id;
    RewrittenId(job.codec, job.staged[path], job.provider);
    var seen := Inspect(job.codec, job.staged[path], Some(job.provider)).value;
    AddsOne(job.codec, st.files, path, seen.updated, seen.meta.id);
  }

  /** A thread already met in this import is not added later in it. */
  lemma {:induction false} TakeAllFindsNoMore(job: Job, st: State, remote: seq<Path>, id: string)
    requires Lawful(job.codec) && Tracks(job.codec, st) && id in st.incoming
    ensures Found(job.codec, TakeAll(job, st, remote).state.files, id) <==> Found(job.codec, st.files, id)
    decreases remote
  {
    hide Take, Tracks, Lawful, Inspect, Found, Indexed, Id;
    if remote != [] {
      var one := Take(job, st, remote[0]);
      TakeTracks(job, st, remote[0]);
      TakeFindsNoMore(job, st, remote[0], id);
      if one.ok {
        TakeAllFindsNoMore(job, one.state, remote[1..], id);
      }
    }
  }

  lemma TakeFindsNoMore(job: Job, st: State, path: Path, id: string)
    requires Lawful(job.codec) && Tracks(job.codec, st) && id in st.incoming
    ensures Found(job.codec, Take(job, st, path).state.files, id) <==> Found(job.codec, st.files, id)
    ensures id in Take(job, st, path).state.incoming
  {
    hide Inspect, Found, Indexed, Id;
    var o := Take(job, st, path);
    if o.state.files != st.files {
      RewrittenId(job.codec, job.staged[path], job.provider);
      var seen := Inspect(job.codec, job.staged[path], Some(job.provider)).value;
      AddsOne(job.codec, st.files, path, seen.updated, seen.meta.id);
    }
  }

  // ---- The code that changes files --------------------------------------------------------------

  class CodexHome {
    var files: Files

    constructor (files: Files)
      ensures this.files == files
    {
      this.files := files;
    }

    /** index_local_sessions. */
    method IndexLocalSessions(c: Codec, listing: seq<Path>) returns (index: Option<map<string, Path>>)
      ensures index == IndexFrom(c, files, listing, map[])
    {
      hide Id;
      var result: map<string, Path> := map[];
      var i := 0;
      while i < |listing|
        invariant 0 <= i <= |listing|
        invariant IndexFrom(c, files, listing[i..], result) == IndexFrom(c, files, listing, map[])
      {
        assert listing[i..][1..] == listing[i + 1..];
        var id := if listing[i] in files then Id(c, files[listing[i]]) else None;
        if id.None? {
          return None;
        }
        if id.value !in result {
          result := result[id.value := listing[i]];
        }
        i := i + 1;
      }
      return Some(result);
    }

    /** import_staged_rollouts. */
    method ImportStagedRollouts(job: Job, listing: seq<Path>, remote: seq<Path>) returns (ok: bool, report: Report)
      modifies this
      ensures var o := Import(job, old(files), listing, remote);
              ok == o.ok && files == o.state.files && report == o.state.report
    {
      hide Inspect, IndexFrom;
      var index := IndexLocalSessions(job.codec, listing);
      report := Report(|remote|, 0, 0, 0, 0);
      if index.None? {
        return false, report;
      }
      var localIds := index.value;
      var incoming: set<string> := {};
      var i := 0;
      while i < |remote|
        invariant 0 <= i <= |remote|
        invariant TakeAll(job, State(files, localIds, incoming, report), remote[i..])
               == TakeAll(job, Start(old(files), index.value, remote), remote)
      {
        var path := remote[i];
        ghost var before := State(files, localIds, incoming, report);
        assert remote[i..][0] == path && remote[i..][1..] == remote[i + 1..];
        i := i + 1;
        if path !in job.staged {
          return false, report;
        }
        var seen := Inspect(job.codec, job.staged[path], Some(job.provider));
        if seen.None? {
          return false, report;
        }
        var id := seen.value.meta.id;
        if seen.value.meta.encrypted {
          report := report.(encrypted := report.encrypted + 1);
        }
        var repeated := id in incoming;
        incoming := incoming + {id};
        if repeated || id in localIds {
          report := report.(duplicates := report.duplicates + 1);
          continue;
        }
        if path in files || path in job.occupied {
          report := report.(conflicts := report.conflicts + 1);
          continue;
        }
        if path in job.blocked {
          return false, report;
        }
        files := files[path := seen.value.updated];
        localIds := localIds[id := path];
        report := report.(imported := report.imported + 1);
      }
      return true, report;
    }
  }
}
