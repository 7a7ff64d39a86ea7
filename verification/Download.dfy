/** The retrying, resuming download: at most three runs of curl, and one completion event. */
module Download {
  import opened Wrappers

  type Bytes = seq<int>

  datatype Exit = Code(code: int) | Signalled

  /** What one look at the running transfer reports: bytes on disk, and the total if known. */
  datatype Seen = Seen(bytes: nat, total: Option<nat>)

  datatype Progress = Progress(seen: Seen, complete: bool)

  /** One run of curl: it may not start, waiting for it may fail after some looks, or it exits. after is
      the file it leaves; readable says that its error output could be read afterwards. */
  datatype Attempt =
    | NotStarted
    | LostTrack(looks: seq<Seen>, after: Bytes)
    | Exited(looks: seq<Seen>, last: Seen, exit: Exit, http: Option<nat>, readable: bool, after: Bytes)

  datatype Outcome = Outcome(ok: bool, tried: nat, events: seq<Progress>, file: Bytes)

  const MAX_ATTEMPTS: nat := 3
  const RETRY_CODES: set<int> := {5, 6, 7, 18, 28, 52, 55, 56}
  const RETRY_STATUSES: set<nat> := {408, 429, 500, 502, 503, 504}

  predicate Success(exit: Exit) {
    exit == Code(0)
  }

  predicate Retries(exit: Exit, http: Option<nat>) {
    && exit.Code?
    && (exit.code in RETRY_CODES || (exit.code == 22 && http.Some? && http.value in RETRY_STATUSES))
  }

  function Looks(looks: seq<Seen>): seq<Progress> {
    if looks == [] then [] else Looks(looks[..|looks| - 1]) + [Progress(looks[|looks| - 1], false)]
  }

  /** The events of one run of curl. */
  function Events(a: Attempt): seq<Progress> {
    match a
    case NotStarted => []
    case LostTrack(looks, _) => Looks(looks)
    case Exited(looks, last, exit, _, _, _) => Looks(looks) + [Progress(last, Success(exit))]
  }

  function After(file: Bytes, a: Attempt): Bytes {
    if a.NotStarted? then file else a.after
  }

  /** The download from attempt number tried on. */
  function Continue(so: Outcome, attempts: seq<Attempt>): Outcome
    requires so.tried < |attempts| == MAX_ATTEMPTS
    decreases MAX_ATTEMPTS - so.tried
  {
    var a := attempts[so.tried];
    var next := Outcome(false, so.tried + 1, so.events + Events(a), After(so.file, a));
    if !a.Exited? || !a.readable then next
    else if Success(a.exit) then next.(ok := true)
    else if !Retries(a.exit, a.http) || next.tried == MAX_ATTEMPTS then next
    else Continue(next, attempts)
  }

  function Run(file: Bytes, attempts: seq<Attempt>): Outcome
    requires |attempts| == MAX_ATTEMPTS
  {
    Continue(Outcome(false, 0, [], file), attempts)
  }

  // ---- Events ----------------------------------------------------------------------------

  predicate Quiet(events: seq<Progress>) {
    forall i :: 0 <= i < |events| ==> !events[i].complete
  }

  lemma {:induction false} LooksQuiet(looks: seq<Seen>)
    ensures Quiet(Looks(looks)) && |Looks(looks)| == |looks|
  {
    if looks != [] {
      LooksQuiet(looks[..|looks| - 1]);
    }
  }

  /** The last run of curl that took place. */
  function Last(o: Outcome, attempts: seq<Attempt>): Attempt
    requires 1 <= o.tried <= |attempts|
  {
    attempts[o.tried - 1]
  }

  lemma {:induction false} ContinueEvents(so: Outcome, attempts: seq<Attempt>)
    requires so.tried < |attempts| == MAX_ATTEMPTS && Quiet(so.events)
    ensures var o := Continue(so, attempts);
            && so.tried < o.tried <= MAX_ATTEMPTS
            && (forall i :: 0 <= i < |o.events| - 1 ==> !o.events[i].complete)
            && (o.events != [] && o.events[|o.events| - 1].complete
                <==> Last(o, attempts).Exited? && Success(Last(o, attempts).exit))
            && (o.ok <==> Last(o, attempts).Exited? && Success(Last(o, attempts).exit) && Last(o, attempts).readable)
    decreases MAX_ATTEMPTS - so.tried
  {
    var a := attempts[so.tried];
    if !a.NotStarted? {
      LooksQuiet(a.looks);
    }
    var next := Outcome(false, so.tried + 1, so.events + Events(a), After(so.file, a));
    if a.Exited? && a.readable && !Success(a.exit) && Retries(a.exit, a.http) && next.tried < MAX_ATTEMPTS {
      ContinueEvents(next, attempts);
    }
  }

  /** At most three runs of curl, and at most one completion event, which comes last. The download is
      reported as done exactly when that event was emitted and curl's error output could be read. */
  lemma CompletionEvent(file: Bytes, attempts: seq<Attempt>)
    requires |attempts| == MAX_ATTEMPTS
    ensures var o := Run(file, attempts);
            && 1 <= o.tried <= MAX_ATTEMPTS
            && (forall i :: 0 <= i < |o.events| && o.events[i].complete ==> i == |o.events| - 1)
            && (o.ok <==> && o.events != [] && o.events[|o.events| - 1].complete
                          && Last(o, attempts).Exited? && Last(o, attempts).readable)
  {
    hide Continue;
    ContinueEvents(Outcome(false, 0, [], file), attempts);
  }

  /** A completed transfer is still reported as a failure when the error output cannot be read. */
  lemma CompletedYetFailed(file: Bytes, attempts: seq<Attempt>, payload: Bytes)
    requires |attempts| == MAX_ATTEMPTS
    requires attempts[0] == Exited([], Seen(|payload|, None), Code(0), Some(200), false, payload)
    ensures var o := Run(file, attempts);
            && !o.ok && o.file == payload
            && o.events == [Progress(Seen(|payload|, None), true)]
  {
  }

  /** An exit that the documented rule retries: curl's codes for a host or connection that failed, and 22 with a status
      that may pass. */
  predicate Transient(a: Attempt) {
    && a.Exited? && a.readable && a.exit.Code?
    && (|| a.exit.code in {5, 6, 7, 18, 28, 52, 55, 56}
        || (a.exit.code == 22 && a.http.Some? && a.http.value in {408, 429, 500, 502, 503, 504}))
  }

  lemma {:induction false} RetriedExactly(so: Outcome, attempts: seq<Attempt>, k: nat)
    requires so.tried < |attempts| == MAX_ATTEMPTS && so.tried <= k < Continue(so, attempts).tried <= MAX_ATTEMPTS
    ensures k + 1 < Continue(so, attempts).tried <==> k + 1 < 3 && Transient(attempts[k])
    decreases MAX_ATTEMPTS - so.tried
  {
    var a := attempts[so.tried];
    var next := Outcome(false, so.tried + 1, so.events + Events(a), After(so.file, a));
    if a.Exited? && a.readable && !Success(a.exit) && Retries(a.exit, a.http) && next.tried < MAX_ATTEMPTS {
      ContinueFurther(next, attempts);
      if k > so.tried {
        RetriedExactly(next, attempts, k);
      }
    }
  }

  lemma {:induction false} ContinueFurther(so: Outcome, attempts: seq<Attempt>)
    requires so.tried < |attempts| == MAX_ATTEMPTS
    ensures so.tried < Continue(so, attempts).tried <= MAX_ATTEMPTS
    decreases MAX_ATTEMPTS - so.tried
  {
    var a := attempts[so.tried];
    var next := Outcome(false, so.tried + 1, so.events + Events(a), After(so.file, a));
    if a.Exited? && a.readable && !Success(a.exit) && Retries(a.exit, a.http) && next.tried < MAX_ATTEMPTS {
      ContinueFurther(next, attempts);
    }
  }

  /** A further run of curl follows exactly a transient exit, and there are at most three. */
  lemma RetriesExactly(file: Bytes, attempts: seq<Attempt>, k: nat)
    requires |attempts| == MAX_ATTEMPTS && k < Run(file, attempts).tried
    ensures k + 1 < Run(file, attempts).tried <==> k + 1 < 3 && Transient(attempts[k])
  {
    ContinueFurther(Outcome(false, 0, [], file), attempts);
    RetriedExactly(Outcome(false, 0, [], file), attempts, k);
  }

  /** What one run of curl tells the callback: every look, and at its exit a last one that is complete for exit code 0. */
  function Told(a: Attempt): seq<Progress> {
    match a
    case NotStarted => []
    case LostTrack(looks, _) => seq(|looks|, i requires 0 <= i < |looks| => Progress(looks[i], false))
    case Exited(looks, last, exit, _, _, _) =>
      seq(|looks|, i requires 0 <= i < |looks| => Progress(looks[i], false)) + [Progress(last, exit == Code(0))]
  }

  function ToldBy(attempts: seq<Attempt>, n: nat): seq<Progress>
    requires n <= |attempts|
  {
    if n == 0 then [] else ToldBy(attempts, n - 1) + Told(attempts[n - 1])
  }

  lemma {:induction false} LooksAre(looks: seq<Seen>)
    ensures Looks(looks) == seq(|looks|, i requires 0 <= i < |looks| => Progress(looks[i], false))
  {
    if looks != [] {
      LooksAre(looks[..|looks| - 1]);
    }
  }

  lemma EventsAre(a: Attempt)
    ensures Events(a) == Told(a)
  {
    hide Looks;
    if !a.NotStarted? {
      LooksAre(a.looks);
    }
  }

  lemma {:induction false} ContinueTells(so: Outcome, attempts: seq<Attempt>)
    requires so.tried < |attempts| == MAX_ATTEMPTS && so.events == ToldBy(attempts, so.tried)
    ensures var o := Continue(so, attempts); o.tried <= MAX_ATTEMPTS && o.events == ToldBy(attempts, o.tried)
    decreases MAX_ATTEMPTS - so.tried
  {
    hide Events, Told;
    var a := attempts[so.tried];
    EventsAre(a);
    var next := Outcome(false, so.tried + 1, so.events + Events(a), After(so.file, a));
    if a.Exited? && a.readable && !Success(a.exit) && Retries(a.exit, a.http) && next.tried < MAX_ATTEMPTS {
      ContinueTells(next, attempts);
    }
  }

  /** The callback is told everything, in order, and nothing else. */
  lemma EventsExactly(file: Bytes, attempts: seq<Attempt>)
    requires |attempts| == MAX_ATTEMPTS
    ensures var o := Run(file, attempts); o.tried <= MAX_ATTEMPTS && o.events == ToldBy(attempts, o.tried)
  {
    ContinueTells(Outcome(false, 0, [], file), attempts);
  }

  // ---- The file ----------------------------------------------------------------------------

  /** curl is asked to resume when there is something to resume from. */
  predicate Resumes(file: Bytes) {
    |file| > 0
  }

  /** The file after the server sent delivered more bytes of the payload, as asked. */
  function Served(payload: Bytes, before: Bytes, delivered: nat): Bytes
    requires |before| + delivered <= |payload|
  {
    if Resumes(before) then before + payload[|before|..|before| + delivered] else payload[..delivered]
  }

  /** A run of curl against a server that honours ranges: what it leaves is what was served, and it
      exits successfully only with all of it. */
  ghost predicate Honours(payload: Bytes, before: Bytes, a: Attempt) {
    !a.NotStarted? ==>
      exists delivered: nat ::
        && |before| + delivered <= |payload|
        && a.after == Served(payload, before, delivered)
        && (a.Exited? && Success(a.exit) ==> |before| + delivered == |payload|)
  }

  lemma ServedIsPrefix(payload: Bytes, before: Bytes, delivered: nat)
    requires before <= payload && |before| + delivered <= |payload|
    ensures Served(payload, before, delivered) == payload[..|before| + delivered]
  {
    var cut := payload[..|before| + delivered];
    assert before == cut[..|before|];
    assert payload[|before|..|before| + delivered] == cut[|before|..];
    assert cut == cut[..|before|] + cut[|before|..];
  }

  lemma ServedPrefix(payload: Bytes, before: Bytes, a: Attempt)
    requires before <= payload && Honours(payload, before, a)
    ensures before <= After(before, a) <= payload
    ensures a.Exited? && Success(a.exit) ==> After(before, a) == payload
  {
    hide Served, Success;
    if !a.NotStarted? {
      var delivered: nat :| && |before| + delivered <= |payload|
                            && a.after == Served(payload, before, delivered)
                            && (a.Exited? && Success(a.exit) ==> |before| + delivered == |payload|);
      ServedIsPrefix(payload, before, delivered);
      assert a.after == payload[..|before| + delivered];
      assert payload[..|payload|] == payload;
    }
  }

  /** The file once the first k runs of curl have taken place. */
  function FileAfter(file: Bytes, attempts: seq<Attempt>, k: nat): Bytes
    requires k <= |attempts|
  {
    if k == 0 then file else After(FileAfter(file, attempts, k - 1), attempts[k - 1])
  }

  /** Every run of curl that takes place honours ranges, from the file it finds. */
  ghost predicate Honoured(payload: Bytes, file: Bytes, attempts: seq<Attempt>)
    requires |attempts| == MAX_ATTEMPTS
  {
    forall k: nat :: k < Run(file, attempts).tried && k < |attempts| ==> Honours(payload, FileAfter(file, attempts, k), attempts[k])
  }

  lemma {:induction false} ContinueFile(so: Outcome, attempts: seq<Attempt>, file: Bytes)
    requires so.tried < |attempts| == MAX_ATTEMPTS && so.file == FileAfter(file, attempts, so.tried)
    ensures var o := Continue(so, attempts);
            so.tried < o.tried <= MAX_ATTEMPTS && o.file == FileAfter(file, attempts, o.tried)
    decreases MAX_ATTEMPTS - so.tried
  {
    var a := attempts[so.tried];
    var next := Outcome(false, so.tried + 1, so.events + Events(a), After(so.file, a));
    if a.Exited? && a.readable && !Success(a.exit) && Retries(a.exit, a.http) && next.tried < MAX_ATTEMPTS {
      ContinueFile(next, attempts, file);
    }
  }

  lemma {:induction false} PrefixAfter(payload: Bytes, file: Bytes, attempts: seq<Attempt>, n: nat, k: nat)
    requires k <= n <= |attempts| && file <= payload
    requires forall i: nat :: i < n ==> Honours(payload, FileAfter(file, attempts, i), attempts[i])
    ensures FileAfter(file, attempts, k) <= payload
    ensures k > 0 ==> FileAfter(file, attempts, k - 1) <= FileAfter(file, attempts, k)
    ensures k > 0 && attempts[k - 1].Exited? && Success(attempts[k - 1].exit) ==> FileAfter(file, attempts, k) == payload
  {
    hide Honours, After, Success;
    if k > 0 {
      PrefixAfter(payload, file, attempts, n, k - 1);
      ServedPrefix(payload, FileAfter(file, attempts, k - 1), attempts[k - 1]);
    }
  }

  /** When the runs of curl that take place honour ranges, the file is a prefix of the payload after every one of
      them and never shrinks from one to the next; the last is the file of the outcome; and it is the payload when the
      download is reported as done. */
  lemma FileIsPrefix(payload: Bytes, file: Bytes, attempts: seq<Attempt>)
    requires |attempts| == MAX_ATTEMPTS && file <= payload && Honoured(payload, file, attempts)
    ensures var o := Run(file, attempts);
            && o.tried <= MAX_ATTEMPTS
            && (forall k: nat :: k <= o.tried ==> FileAfter(file, attempts, k) <= payload)
            && (forall k: nat :: 0 < k <= o.tried ==> FileAfter(file, attempts, k - 1) <= FileAfter(file, attempts, k))
            && o.file == FileAfter(file, attempts, o.tried)
            && (o.ok ==> o.file == payload)
  {
    hide Honours, FileAfter, Success;
    var o := Run(file, attempts);
    assert FileAfter(file, attempts, 0) == file by { NothingRun(file, attempts); }
    ContinueFile(Outcome(false, 0, [], file), attempts, file);
    ContinueEvents(Outcome(false, 0, [], file), attempts);
    forall k: nat | k <= o.tried
      ensures FileAfter(file, attempts, k) <= payload
      ensures k > 0 ==> FileAfter(file, attempts, k - 1) <= FileAfter(file, attempts, k)
    {
      PrefixAfter(payload, file, attempts, o.tried, k);
    }
    PrefixAfter(payload, file, attempts, o.tried, o.tried);
  }

  lemma NothingRun(file: Bytes, attempts: seq<Attempt>)
    ensures FileAfter(file, attempts, 0) == file
  {
  }

  // ---- The loop ----------------------------------------------------------------------------

  datatype AttemptResult = AttemptError | AttemptExit(exit: Exit, http: Option<nat>)

  class Downloader {
    /** The destination file. */
    var file: Bytes
    /** What the progress callback has been told. */
    var events: seq<Progress>

    constructor (file: Bytes)
      ensures this.file == file && events == []
    {
      this.file, events := file, [];
    }

    /** curl_download_attempt. */
    method CurlDownloadAttempt(a: Attempt) returns (r: AttemptResult)
      modifies this
      ensures file == After(old(file), a) && events == old(events) + Events(a)
      ensures r == if a.Exited? && a.readable then AttemptExit(a.exit, a.http) else AttemptError
    {
      if a.NotStarted? {
        return AttemptError;
      }
      var i := 0;
      while i < |a.looks|
        invariant 0 <= i <= |a.looks| && file == old(file)
        invariant events == old(events) + Looks(a.looks[..i])
      {
        events := events + [Progress(a.looks[i], false)];
        assert a.looks[..i + 1][..i] == a.looks[..i];
        i := i + 1;
      }
      assert a.looks[..i] == a.looks;
      file := a.after;
      if a.LostTrack? {
        return AttemptError;
      }
      events := events + [Progress(a.last, Success(a.exit))];
      if !a.readable {
        return AttemptError;
      }
      return AttemptExit(a.exit, a.http);
    }

    /** download_file_with_progress. The end of the loop is never reached. */
    method DownloadFile(attempts: seq<Attempt>) returns (ok: bool, tried: nat)
      requires |attempts| == MAX_ATTEMPTS && events == []
      modifies this
      ensures Outcome(ok, tried, events, file) == Run(old(file), attempts)
    {
      hide Events, After, Retries;
      tried := 0;
      for attempt := 0 to MAX_ATTEMPTS
        invariant tried == attempt
        invariant attempt < MAX_ATTEMPTS ==>
                    Continue(Outcome(false, attempt, events, file), attempts) == Run(old(file), attempts)
        invariant attempt < MAX_ATTEMPTS
      {
        var result := CurlDownloadAttempt(attempts[attempt]);
        tried := attempt + 1;
        if result.AttemptError? {
          return false, tried;
        }
        if Success(result.exit) {
          return true, tried;
        }
        if !Retries(result.exit, result.http) || attempt == 2 {
          return false, tried;
        }
      }
      assert false;
    }
  }
}
