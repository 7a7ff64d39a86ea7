/** When an import succeeds, and what exactly it leaves, in terms of the remote files and what was there before. */
module ImportOutcome {
  import opened Wrappers
  import opened Rollout
  import opened Import

  /** What an import starts from: the local files, the ids of the local rollouts, and the remote paths in order. */
  datatype Case = Case(job: Job, files: Files, known: set<string>, remote: seq<Path>)

  ghost predicate Readable(x: Case, k: nat)
    requires k < |x.remote|
  {
    x.remote[k] in x.job.staged && Inspect(x.job.codec, x.job.staged[x.remote[k]], Some(x.job.provider)).Some?
  }

  function Seen(x: Case, k: nat): Option<Inspected>
    requires k < |x.remote|
  {
    if x.remote[k] in x.job.staged then Inspect(x.job.codec, x.job.staged[x.remote[k]], Some(x.job.provider)) else None
  }

  function IdAt(x: Case, k: nat): Option<string>
    requires k < |x.remote|
  {
    if Seen(x, k).Some? then Some(Seen(x, k).value.meta.id) else None
  }

  /** The thread is known locally, or an earlier remote file is of the same thread. */
  ghost predicate Duplicate(x: Case, k: nat)
    requires k < |x.remote|
  {
    IdAt(x, k).Some? && (IdAt(x, k).value in x.known || exists j :: 0 <= j < k && IdAt(x, j) == IdAt(x, k))
  }

  /** Something is at the path: a file or something else from before, or an earlier remote file that was written. */
  ghost predicate Occupied(x: Case, k: nat)
    requires k < |x.remote|
    decreases k, 0
  {
    x.remote[k] in x.files || x.remote[k] in x.job.occupied || exists j :: 0 <= j < k && x.remote[j] == x.remote[k] && Writes(x, j)
  }

  /** The remote file becomes a local one. */
  ghost predicate Writes(x: Case, k: nat)
    requires k < |x.remote|
    decreases k, 1
  {
    !Duplicate(x, k) && !Occupied(x, k)
  }

  ghost function Writings(x: Case, n: nat): nat
    requires n <= |x.remote|
  {
    if n == 0 then 0 else Writings(x, n - 1) + (if Writes(x, n - 1) then 1 else 0)
  }

  ghost function Duplicates(x: Case, n: nat): nat
    requires n <= |x.remote|
  {
    if n == 0 then 0 else Duplicates(x, n - 1) + (if Duplicate(x, n - 1) then 1 else 0)
  }

  ghost function Conflicts(x: Case, n: nat): nat
    requires n <= |x.remote|
  {
    if n == 0 then 0 else Conflicts(x, n - 1) + (if !Duplicate(x, n - 1) && Occupied(x, n - 1) then 1 else 0)
  }

  function Encrypted(x: Case, n: nat): nat
    requires n <= |x.remote|
  {
    if n == 0 then 0
    else Encrypted(x, n - 1) + (if Seen(x, n - 1).Some? && Seen(x, n - 1).value.meta.encrypted then 1 else 0)
  }

  /** The ids that came in are those of the first n remote files. */
  ghost predicate CameIn(x: Case, n: nat, ids: set<string>)
    requires n <= |x.remote|
  {
    forall id :: id in ids <==> exists j :: 0 <= j < n && IdAt(x, j) == Some(id)
  }

  /** The threads known are those known before and those written. */
  ghost predicate AreKnown(x: Case, n: nat, ids: set<string>)
    requires n <= |x.remote|
  {
    forall id :: id in ids <==> id in x.known || exists j :: 0 <= j < n && Writes(x, j) && IdAt(x, j) == Some(id)
  }

  /** One of the first n remote files is written at this path. */
  ghost predicate WrittenAt(x: Case, n: nat, path: Path)
    requires n <= |x.remote|
  {
    exists j :: 0 <= j < n && Writes(x, j) && x.remote[j] == path
  }

  /** There are files at the paths of before, and at those written. */
  ghost predicate HasPaths(x: Case, n: nat, files: Files)
    requires n <= |x.remote|
  {
    forall p :: p in files <==> p in x.files || WrittenAt(x, n, p)
  }

  /** The files of before are unchanged. */
  ghost predicate KeepsFiles(x: Case, files: Files) {
    forall p :: p in x.files ==> p in files && files[p] == x.files[p]
  }

  /** Those written are the remote files with their provider rewritten. */
  ghost predicate HoldsWritten(x: Case, n: nat, files: Files)
    requires n <= |x.remote|
  {
    forall j :: 0 <= j < n && Writes(x, j) ==>
      Seen(x, j).Some? && x.remote[j] in files && files[x.remote[j]] == Seen(x, j).value.updated
  }

  ghost predicate HoldsFiles(x: Case, n: nat, files: Files)
    requires n <= |x.remote|
  {
    HasPaths(x, n, files) && KeepsFiles(x, files) && HoldsWritten(x, n, files)
  }

  ghost function Tally(x: Case, n: nat): Report
    requires n <= |x.remote|
  {
    Report(|x.remote|, Writings(x, n), Duplicates(x, n), Conflicts(x, n), Encrypted(x, n))
  }

  /** The state once the first n remote files were taken. */
  ghost predicate After(x: Case, n: nat, st: State)
    requires n <= |x.remote|
  {
    && CameIn(x, n, st.incoming) && AreKnown(x, n, st.localIds.Keys) && HoldsFiles(x, n, st.files)
    && st.report == Tally(x, n)
  }

  /** File k can be taken: it can be read, and written if it is to be. */
  ghost predicate Takeable(x: Case, k: nat)
    requires k < |x.remote|
  {
    Readable(x, k) && (Writes(x, k) ==> x.remote[k] !in x.job.blocked)
  }

  lemma DuplicateInState(x: Case, n: nat, st: State)
    requires n < |x.remote| && After(x, n, st) && Readable(x, n)
    ensures Duplicate(x, n) <==> IdAt(x, n).value in st.incoming || IdAt(x, n).value in st.localIds
    ensures Occupied(x, n) <==> x.remote[n] in st.files || x.remote[n] in x.job.occupied
  {
    hide Inspect;
  }

  lemma TakeExactly(x: Case, n: nat, st: State)
    requires n < |x.remote| && After(x, n, st)
    ensures var o := Take(x.job, st, x.remote[n]); o.ok <==> Takeable(x, n)
    ensures var o := Take(x.job, st, x.remote[n]); o.ok ==> After(x, n + 1, o.state)
  {
    hide Inspect;
    if Readable(x, n) {
      DuplicateInState(x, n, st);
      var o := Take(x.job, st, x.remote[n]);
      if o.ok {
        TakenAfter(x, n, st, o.state);
      }
    }
  }

  lemma TakenAfter(x: Case, n: nat, st: State, next: State)
    requires n < |x.remote| && After(x, n, st) && Readable(x, n)
    requires next.incoming == st.incoming + {IdAt(x, n).value}
    requires next.localIds == (if Writes(x, n) then st.localIds[IdAt(x, n).value := x.remote[n]] else st.localIds)
    requires next.files == (if Writes(x, n) then st.files[x.remote[n] := Seen(x, n).value.updated] else st.files)
    requires next.report == Tally(x, n + 1)
    ensures After(x, n + 1, next)
  {
    hide CameIn, AreKnown, HoldsFiles, Tally, Writes, Inspect;
    NextCameIn(x, n, st.incoming);
    NextKnown(x, n, st.localIds.Keys);
    NextFiles(x, n, st.files);
    assert Writes(x, n) ==> next.localIds.Keys == st.localIds.Keys + {IdAt(x, n).value};
  }

  lemma NextCameIn(x: Case, n: nat, ids: set<string>)
    requires n < |x.remote| && CameIn(x, n, ids) && Readable(x, n)
    ensures CameIn(x, n + 1, ids + {IdAt(x, n).value})
  {
    hide Inspect;
    forall id ensures (exists j :: 0 <= j < n + 1 && IdAt(x, j) == Some(id)) <==> id in ids || IdAt(x, n) == Some(id) {
      if IdAt(x, n) == Some(id) {
        assert 0 <= n < n + 1;
      }
    }
  }

  lemma NextKnown(x: Case, n: nat, ids: set<string>)
    requires n < |x.remote| && AreKnown(x, n, ids) && Readable(x, n)
    ensures AreKnown(x, n + 1, if Writes(x, n) then ids + {IdAt(x, n).value} else ids)
  {
    hide Inspect, Writes;
    if Writes(x, n) {
      forall id ensures (exists j :: 0 <= j < n + 1 && Writes(x, j) && IdAt(x, j) == Some(id))
        <==> (exists j :: 0 <= j < n && Writes(x, j) && IdAt(x, j) == Some(id)) || IdAt(x, n) == Some(id) {
      }
    } else {
      assert forall j :: 0 <= j < n + 1 && Writes(x, j) ==> j < n;
    }
  }

  lemma WrittenNext(x: Case, n: nat, path: Path)
    requires n < |x.remote|
    ensures WrittenAt(x, n + 1, path) <==> WrittenAt(x, n, path) || (Writes(x, n) && x.remote[n] == path)
  {
    hide Writes;
    if Writes(x, n) && x.remote[n] == path {
      assert 0 <= n < n + 1;
    }
  }

  lemma NextFiles(x: Case, n: nat, files: Files)
    requires n < |x.remote| && HoldsFiles(x, n, files) && Readable(x, n)
    ensures Seen(x, n).Some? && HoldsFiles(x, n + 1, if Writes(x, n) then files[x.remote[n] := Seen(x, n).value.updated] else files)
  {
    ReadableSeen(x, n);
    hide Inspect, Writes, Seen, WrittenAt;
    forall path ensures WrittenAt(x, n + 1, path) <==> WrittenAt(x, n, path) || (Writes(x, n) && x.remote[n] == path) {
      WrittenNext(x, n, path);
    }
    if Writes(x, n) {
      OneMoreFile(x, n, files);
    } else {
      SameFiles(x, n, files);
    }
  }

  lemma SameFiles(x: Case, n: nat, files: Files)
    requires n < |x.remote| && HoldsFiles(x, n, files) && !Writes(x, n)
    requires forall path :: WrittenAt(x, n + 1, path) <==> WrittenAt(x, n, path)
    ensures HoldsFiles(x, n + 1, files)
  {
    hide Inspect, Writes, Seen, WrittenAt;
  }

  lemma OneMoreFile(x: Case, n: nat, files: Files)
    requires n < |x.remote| && HoldsFiles(x, n, files) && Writes(x, n) && Seen(x, n).Some?
    requires forall path :: WrittenAt(x, n + 1, path) <==> WrittenAt(x, n, path) || x.remote[n] == path
    ensures HoldsFiles(x, n + 1, files[x.remote[n] := Seen(x, n).value.updated])
  {
    NewPath(x, n);
    hide Writes, Seen, WrittenAt, HasPaths, HoldsWritten, KeepsFiles, Inspect;
    var after := files[x.remote[n] := Seen(x, n).value.updated];
    assert HasPaths(x, n + 1, after) by { MorePaths(x, n, files, Seen(x, n).value.updated); }
    assert KeepsFiles(x, after) by { StillKept(x, n, files, Seen(x, n).value.updated); }
    assert HoldsWritten(x, n + 1, after) by { MoreWritten(x, n, files); }
  }

  lemma MorePaths(x: Case, n: nat, files: Files, text: string)
    requires n < |x.remote| && HasPaths(x, n, files)
    requires forall path :: WrittenAt(x, n + 1, path) <==> WrittenAt(x, n, path) || x.remote[n] == path
    ensures HasPaths(x, n + 1, files[x.remote[n] := text])
  {
    hide WrittenAt;
  }

  lemma StillKept(x: Case, n: nat, files: Files, text: string)
    requires n < |x.remote| && KeepsFiles(x, files) && x.remote[n] !in x.files
    ensures KeepsFiles(x, files[x.remote[n] := text])
  {
  }

  lemma MoreWritten(x: Case, n: nat, files: Files)
    requires n < |x.remote| && HoldsWritten(x, n, files) && Seen(x, n).Some?
    requires forall j :: 0 <= j < n && Writes(x, j) ==> x.remote[j] != x.remote[n]
    ensures HoldsWritten(x, n + 1, files[x.remote[n] := Seen(x, n).value.updated])
  {
    hide Writes, Seen;
  }

  lemma ReadableSeen(x: Case, n: nat)
    requires n < |x.remote| && Readable(x, n)
    ensures Seen(x, n).Some?
  {
  }

  lemma NewPath(x: Case, n: nat)
    requires n < |x.remote| && Writes(x, n)
    ensures x.remote[n] !in x.files && forall j :: 0 <= j < n && Writes(x, j) ==> x.remote[j] != x.remote[n]
  {
    hide Inspect;
  }

  lemma {:induction false} TakeAllExactly(x: Case, n: nat, st: State)
    requires n <= |x.remote| && After(x, n, st)
    ensures var o := TakeAll(x.job, st, x.remote[n..]);
            && (o.ok <==> forall k: nat :: n <= k < |x.remote| ==> Takeable(x, k))
            && (o.ok ==> After(x, |x.remote|, o.state))
    decreases |x.remote| - n
  {
    hide Take, After, Takeable;
    if n < |x.remote| {
      TakeExactly(x, n, st);
      var one := Take(x.job, st, x.remote[n]);
      if one.ok {
        TakeAllExactly(x, n + 1, one.state);
        assert x.remote[n..][1..] == x.remote[n + 1..];
      }
    }
  }

  /** An import succeeds exactly when every indexed local rollout and every remote file can be read and none that is to be
      written is blocked. It has then written exactly the remote files of new threads at free paths, each with its provider
      rewritten, kept all others, and counted each remote file under what became of it. */
  lemma ImportExactly(job: Job, files: Files, listing: seq<Path>, remote: seq<Path>)
    ensures var o, index := Import.Import(job, files, listing, remote), IndexFrom(job.codec, files, listing, map[]);
            && (o.ok <==> index.Some? && forall k: nat :: k < |remote| ==> Takeable(Case(job, files, index.value.Keys, remote), k))
            && (o.ok ==> After(Case(job, files, index.value.Keys, remote), |remote|, o.state))
  {
    hide Inspect, TakeAll, Takeable;
    var index := IndexFrom(job.codec, files, listing, map[]);
    if index.Some? {
      var x := Case(job, files, index.value.Keys, remote);
      assert After(x, 0, Start(files, index.value, remote));
      assert remote[0..] == remote;
      hide After;
      TakeAllExactly(x, 0, Start(files, index.value, remote));
    }
  }
}
