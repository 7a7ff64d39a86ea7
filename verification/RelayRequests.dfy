/** What the requests of a thread start were made of, over all runs: which sources were in force when the local request
    was sent, and which files were asked for. */
module RelayRequests {
  import opened Wrappers
  import opened Json
  import opened RelaySpec
  import opened RelayFrames
  import opened RelayCauses
  import opened RelayReplies
  import RelayThreads
  import RelayGather
  import Ids

  // ---- The local request ----------------------------------------------------------------------------

  /** The sources listed by the host's last successful reply to the shadow, when event k has been looked at. */
  ghost function SourcesInForce(cfg: Config, s0: State, events: seq<Event>, k: nat, id: string): seq<string>
    requires k < |events|
  {
    if Succeeds(events[k], id) then InstructionPaths(events[k].line.value)
    else Sources(HostReply(cfg, s0, events[..k], id))
  }

  /** Frame i is the local request that event k caused, made from entry p. */
  ghost predicate RequestAt(cfg: Config, s0: State, events: seq<Event>, i: nat, k: nat, p: Pending) {
    && i < |Trace(Run(cfg, s0, events))| && CausedBy(cfg, s0, events, k, i)
    && var frame, s := Trace(Run(cfg, s0, events))[i], Run(cfg, s0, events[..k]).state;
      && frame.LocalStart? && frame.id in s.pending && EntryAt(cfg, s, events[k], frame.id) == Some(p)
      && LocalRequest(p) == Some(frame.message)
      && RelayThreads.EntryMid(frame.id, p)
      && p.paths == SourcesInForce(cfg, s0, events, k, frame.id)
  }

  lemma EntryAtMid(cfg: Config, s: State, e: Event, id: string)
    requires RelayThreads.ThreadInv(cfg, s) && id in s.pending && EntryAt(cfg, s, e, id).Some?
    ensures var p := EntryAt(cfg, s, e, id).value;
            && RelayThreads.EntryMid(id, p)
            && p.paths == (if Succeeds(e, id) then InstructionPaths(e.line.value) else s.pending[id].paths)
  {
    hide RelayThreads.Accounted, RelayThreads.ReadsOf, RelayThreads.WithinBudget, RecordRead, ObjectField, InstructionPaths, HasId, HasError;
    RelayThreads.EntryOf(cfg, s, id);
    if e.HostLine? && e.line.Some? && StringField(e.line.value, "id").Some? {
      var readId := StringField(e.line.value, "id").value;
      if readId in s.pending[id].outstanding && RecordRead(cfg, s.pending[id], readId, e.line.value).Some? {
        RelayThreads.RecordedMid(cfg, id, s.pending[id], readId, e.line.value);
        RecordedSent(cfg, s.pending[id], readId, e.line.value);
      }
    }
  }

  lemma RequestCaused(cfg: Config, scope: Option<Scope>, events: seq<Event>, i: nat, k: nat)
    requires i < |Trace(Run(cfg, Initial(scope), events))| && Trace(Run(cfg, Initial(scope), events))[i].LocalStart?
    requires CausedBy(cfg, Initial(scope), events, k, i)
    ensures var s, id := Run(cfg, Initial(scope), events[..k]).state, Trace(Run(cfg, Initial(scope), events))[i].id;
            && id in s.pending && EntryAt(cfg, s, events[k], id).Some?
            && RequestAt(cfg, Initial(scope), events, i, k, EntryAt(cfg, s, events[k], id).value)
  {
    hide Run, Enabled, EntryAt, LocalRequest, RelayThreads.ThreadInv, RelayThreads.WireThreads, RelayThreads.EntryMid, HostReply, Sources,
         Asked, RelayProgress.Concerns, InstructionPaths, Succeeds;
    var frame := Trace(Run(cfg, Initial(scope), events))[i];
    var s := Run(cfg, Initial(scope), events[..k]).state;
    assert StartCause(cfg, s, events[k], frame.id, frame.message);
    RepliesRemembered(cfg, scope, events[..k]);
    RelayThreads.ThreadStartsAccounted(cfg, scope, events[..k]);
    EntryAtMid(cfg, s, events[k], frame.id);
  }

  /** Over all runs: every local request was made from an entry whose sources are those in force. */
  lemma RequestsListSources(cfg: Config, scope: Option<Scope>, events: seq<Event>, i: nat)
    requires i < |Trace(Run(cfg, Initial(scope), events))| && Trace(Run(cfg, Initial(scope), events))[i].LocalStart?
    ensures exists k: nat, p :: RequestAt(cfg, Initial(scope), events, i, k, p)
  {
    hide Run, CausedBy, RequestAt;
    FramesCaused(cfg, Initial(scope), events, i);
    var k: nat :| CausedBy(cfg, Initial(scope), events, k, i);
    RequestCaused(cfg, scope, events, i, k);
  }

  // ---- Files asked for --------------------------------------------------------------------------------

  /** Frame i asks for a source that event k, the host's successful reply to a waiting shadow, lists. */
  ghost predicate ReadAt(cfg: Config, s0: State, events: seq<Event>, i: nat, k: nat, id: string) {
    && i < |Trace(Run(cfg, s0, events))| && CausedBy(cfg, s0, events, k, i)
    && var frame, s := Trace(Run(cfg, s0, events))[i], Run(cfg, s0, events[..k]).state;
      && frame.ReadFile? && RelayThreads.Unsent(s, id) && Succeeds(events[k], id)
      && |s.out| <= i < |s.out| + |InstructionPaths(events[k].line.value)|
      && frame.id == Ids.ReadId(id, i - |s.out|)
      && AsksFor(frame.message, frame.id, InstructionPaths(events[k].line.value)[i - |s.out|])
  }

  /** Over all runs: every file asked for is a source that the host listed for a waiting thread start. */
  lemma ReadsAreListed(cfg: Config, scope: Option<Scope>, events: seq<Event>, i: nat)
    requires i < |Trace(Run(cfg, Initial(scope), events))| && Trace(Run(cfg, Initial(scope), events))[i].ReadFile?
    ensures exists k: nat, id :: ReadAt(cfg, Initial(scope), events, i, k, id)
  {
    hide Run, Enabled, InstructionPaths, Succeeds, Ids.ReadId, AsksFor, RelayThreads.Unsent;
    var s0 := Initial(scope);
    var out := Trace(Run(cfg, s0, events));
    FramesCaused(cfg, s0, events, i);
    var k: nat :| CausedBy(cfg, s0, events, k, i);
    var id :| ReadCause(Run(cfg, s0, events[..k]).state, events[k], out[..i], out[i].id, out[i].message, id);
    assert ReadAt(cfg, s0, events, i, k, id);
  }

  /** The host was asked for all of paths, in order, from position at on. */
  predicate AllAsked(out: seq<Sent>, at: nat, id: string, paths: seq<string>) {
    && at + |paths| <= |out|
    && forall j :: 0 <= j < |paths| ==> Asking(out[at + j], Ids.ReadId(id, j), paths[j])
  }

  lemma {:induction false} IssuedAll(s: State, id: string, paths: seq<string>, k: nat)
    requires id in s.pending && k <= |paths|
    ensures var out := IssueReads(s, id, paths, k).out;
            |out| == |s.out| + k && s.out <= out && AllAsked(out, |s.out|, id, paths[..k])
  {
    hide ReadRequest, Ids.ReadId, IssueReads;
    RelayThreads.IssuedNone(s, id, paths);
    if k > 0 {
      IssuedAll(s, id, paths, k - 1);
      RelayThreads.IssuedOne(s, id, paths, k);
      var before, out := IssueReads(s, id, paths, k - 1).out, IssueReads(s, id, paths, k).out;
      forall j | 0 <= j < k
        ensures Asking(out[|s.out| + j], Ids.ReadId(id, j), paths[j])
      {
        if j < k - 1 {
          assert out[|s.out| + j] == before[|s.out| + j] && paths[..k - 1][j] == paths[j];
        } else {
          ReadRequestAsks(Ids.ReadId(id, j), paths[j]);
        }
      }
    }
  }

  /** A successful reply to the shadow of an entry that waits asks for every source it lists. */
  lemma ReplyAsksAll(cfg: Config, s: State, e: Event, id: string)
    requires RelayLedger.Tallied(cfg, s) && RelayThreads.Unsent(s, id) && Succeeds(e, id)
    requires Handle(cfg, s, e).Next? && InstructionPaths(e.line.value) != []
    ensures AllAsked(Handle(cfg, s, e).state.out, |s.out|, id, InstructionPaths(e.line.value))
  {
    hide IssueReads, InstructionPaths, LoopTail, HandleReadReply, HostMessageAllowed, FindReader, Ids.HostInitializeId, HasError,
         RelayLedger.Tallied, SendLocal, AllAsked;
    ShadowIsNotHostInitialize(cfg, s, id);
    var v, paths := e.line.value, InstructionPaths(e.line.value);
    var s1 := s.(pending := s.pending[id := s.pending[id].(hostResponse := Some(v), paths := paths)]);
    var mid := IssueReads(s1, id, paths, |paths|);
    assert HandleHostMessage(cfg, s, v, e.order) == Next(mid);
    IssuedAll(s1, id, paths, |paths|);
    assert paths[..|paths|] == paths;
    LoopTailFrame(cfg, mid);
    AskedStays(mid.out, Handle(cfg, s, e).state.out, |s.out|, id, paths);
  }

  lemma AskedStays(before: seq<Sent>, after: seq<Sent>, at: nat, id: string, paths: seq<string>)
    requires before <= after && AllAsked(before, at, id, paths)
    ensures AllAsked(after, at, id, paths)
  {
    hide Ids.ReadId, ReadRequest;
    forall j | 0 <= j < |paths| ensures Asking(after[at + j], Ids.ReadId(id, j), paths[j]) {
      assert after[at + j] == before[at + j];
    }
  }

  /** Over all runs: when the host answers the shadow of a waiting thread start with a list of sources, it is asked for
      all of them, in its order. */
  lemma EverySourceAsked(cfg: Config, scope: Option<Scope>, events: seq<Event>, k: nat, id: string)
    requires Processed(cfg, Initial(scope), events, k) && Run(cfg, Initial(scope), events[..k + 1]).Next?
    requires RelayThreads.Unsent(Run(cfg, Initial(scope), events[..k]).state, id) && Succeeds(events[k], id)
    requires InstructionPaths(events[k].line.value) != []
    ensures AllAsked(Run(cfg, Initial(scope), events[..k + 1]).state.out, |Run(cfg, Initial(scope), events[..k]).state.out|, id,
                     InstructionPaths(events[k].line.value))
  {
    hide Run, Handle, Enabled, InstructionPaths, AllAsked, RelayThreads.Unsent, RelayLedger.Tallied;
    RelayLedger.TableIsTheWires(cfg, scope, events[..k]);
    LastEvent(cfg, Initial(scope), events, k);
    ReplyAsksAll(cfg, Run(cfg, Initial(scope), events[..k]).state, events[k], id);
  }

  // ---- Requests past the limit --------------------------------------------------------------------------

  /** The instructions that a local request carries. */
  function InstructionText(m: Json): Option<string> {
    var params := ObjectField(m, "params");
    if params.Some? then StringField(Obj(params.value), "developerInstructions") else None
  }

  /** Frame i is a local request that carries more instruction text of the host than the limit, and its sources in
      force are paths. */
  ghost predicate Oversized(cfg: Config, s0: State, events: seq<Event>, i: nat, paths: seq<string>) {
    exists k: nat, p ::
      && RequestAt(cfg, s0, events, i, k, p) && p.paths == paths
      && RelayGather.InjectedBytes(p.paths, p.contents) > MAX_INSTRUCTION_TOTAL_BYTES
  }

  lemma SectionsCarry(paths: seq<string>, contents: map<string, string>)
    requires Sections(paths, contents) == []
    ensures RelayGather.InjectedBytes(paths, contents) == 0
  {
    if paths != [] {
      SectionsCarry(paths[..|paths| - 1], contents);
    }
  }

  /** The message itself is that long. */
  lemma OversizedIsLong(cfg: Config, s0: State, events: seq<Event>, i: nat, paths: seq<string>)
    requires Oversized(cfg, s0, events, i, paths)
    ensures i < |Trace(Run(cfg, s0, events))| && Trace(Run(cfg, s0, events))[i].LocalStart?
    ensures var text := InstructionText(Trace(Run(cfg, s0, events))[i].message);
            text.Some? && |text.value| > MAX_INSTRUCTION_TOTAL_BYTES
  {
    hide Run, EntryAt, CausedBy, RelayThreads.EntryMid, RelayGather.InjectedBytes, SourcesInForce;
    var k: nat, p :| RequestAt(cfg, s0, events, i, k, p) && p.paths == paths
                     && RelayGather.InjectedBytes(p.paths, p.contents) > MAX_INSTRUCTION_TOTAL_BYTES;
    LongRequest(p);
  }

  lemma LongRequest(p: Pending)
    requires LocalRequest(p).Some? && RelayGather.InjectedBytes(p.paths, p.contents) > MAX_INSTRUCTION_TOTAL_BYTES
    ensures var text := InstructionText(LocalRequest(p).value); text.Some? && |text.value| > MAX_INSTRUCTION_TOTAL_BYTES
  {
    hide RelayGather.InjectedBytes, Instructions;
    if Sections(p.paths, p.contents) == [] {
      SectionsCarry(p.paths, p.contents);
    }
    hide Sections;
    var m := LocalRequest(p).value;
    RelayGather.InjectedIsCarried(p, StringField(Obj(ObjectField(m, "params").value), "developerInstructions").value);
  }

  /** Over all runs: the sources in force for an oversized request are at least three, and one is listed twice. */
  lemma OversizedRepeats(cfg: Config, scope: Option<Scope>, events: seq<Event>, i: nat, paths: seq<string>)
    requires Oversized(cfg, Initial(scope), events, i, paths)
    ensures |paths| >= 3 && RelayGather.Repeats(paths)
  {
    hide Run, EntryAt, CausedBy, LocalRequest, RelayThreads.ReadsOf, RelayThreads.WithinBudget, RelayGather.InjectedBytes, SourcesInForce,
         RelayGather.Repeats;
    var k: nat, p :| RequestAt(cfg, Initial(scope), events, i, k, p) && p.paths == paths
                     && RelayGather.InjectedBytes(p.paths, p.contents) > MAX_INSTRUCTION_TOTAL_BYTES;
    assert RelayGather.Oversizes(paths, p.contents);
    RelayGather.OversizedExactly(paths);
  }
}
