/** Runs that reach the corners: sources read again forever, requests past the limit, replies whose order matters,
    registration that goes back. */
module RelayScenarios {
  import opened Wrappers
  import opened Json
  import opened RelaySpec
  import opened RelayFrames
  import opened RelayThreads
  import RelayDispatch
  import opened RelayProgress
  import opened RelayGather
  import RelayRegistration
  import RelayCauses
  import RelayRequests
  import Ids

  // ---- A thread start and the host's first reply --------------------------------------------------

  const START: Json := Obj(map[
    "id" := Num(1),
    "method" := Str("thread/start"),
    "params" := Obj(map["cwd" := Str("/")])])

  function FirstId(cfg: Config): string {
    Ids.MetadataId(cfg.environmentId, 1)
  }

  function Texts(paths: seq<string>): seq<Json> {
    if paths == [] then [] else [Str(paths[0])] + Texts(paths[1..])
  }

  /** A successful host reply to the first shadow that lists these sources. */
  function SourcesReply(cfg: Config, paths: seq<string>): Json {
    Obj(map["id" := Str(FirstId(cfg)), "result" := Obj(map["instructionSources" := Arr(Texts(paths))])])
  }

  function Rewritten(cfg: Config): Json {
    Obj(map[
      "id" := Num(1),
      "method" := Str("thread/start"),
      "params" := Obj(map["cwd" := Str("/"), "environments" := Environments(cfg, "/")])])
  }

  function ShadowOfStart(cfg: Config): Json {
    Obj(map[
      "id" := Str(FirstId(cfg)),
      "method" := Str("thread/start"),
      "params" := Obj(map["cwd" := Str("/"), "ephemeral" := Bool(true)])])
  }

  function NewEntryOf(cfg: Config): Pending {
    Pending(Num(1), Rewritten(cfg), None, map[], [], map[], false)
  }

  function AfterStart(cfg: Config, scope: Option<Scope>): State {
    Initial(scope).(sequence := 1, pending := map[FirstId(cfg) := NewEntryOf(cfg)],
                    out := [Shadow(FirstId(cfg), Rewritten(cfg), ShadowOfStart(cfg))])
  }

  function Heard(cfg: Config, scope: Option<Scope>, paths: seq<string>): State {
    AfterStart(cfg, scope).(pending := map[FirstId(cfg) :=
      NewEntryOf(cfg).(hostResponse := Some(SourcesReply(cfg, paths)), paths := paths)])
  }

  /** The state in which all sources have been asked for. */
  function AfterReply(cfg: Config, scope: Option<Scope>, paths: seq<string>): State {
    IssueReads(Heard(cfg, scope, paths), FirstId(cfg), paths, |paths|)
  }

  lemma {:induction false} StringsOfTexts(paths: seq<string>)
    ensures Strings(Texts(paths)) == paths
  {
    if paths != [] {
      StringsOfTexts(paths[1..]);
      assert Texts(paths)[1..] == Texts(paths[1..]);
    }
  }

  lemma PathsOfReply(cfg: Config, paths: seq<string>)
    requires |paths| <= MAX_INSTRUCTION_SOURCES
    ensures InstructionPaths(SourcesReply(cfg, paths)) == paths
  {
    hide Strings, Texts;
    StringsOfTexts(paths);
  }

  lemma RewriteStart(cfg: Config)
    ensures Rewrite(cfg, START) == Some(Rewritten(cfg))
    ensures RequestRoute(cfg, Method(Rewritten(cfg))) == ThreadStart
  {
    hide Environments;
    var params := map["cwd" := Str("/")];
    assert params["environments" := Environments(cfg, "/")] == map["cwd" := Str("/"), "environments" := Environments(cfg, "/")];
    assert START.fields["params" := Obj(params["environments" := Environments(cfg, "/")])] == Rewritten(cfg).fields;
  }

  lemma ShadowStart(cfg: Config)
    ensures ShadowRequest(Rewritten(cfg), FirstId(cfg)) == Some(ShadowOfStart(cfg))
  {
    hide Environments, FirstId;
    var local := Rewritten(cfg);
    var shadow := With(local, "id", Str(FirstId(cfg)));
    var params := local.fields["params"].fields;
    assert ObjectField(shadow, "params") == Some(params);
    assert (params - {"environments"})["ephemeral" := Bool(true)] == ShadowOfStart(cfg).fields["params"].fields;
    assert shadow.fields["params" := Obj((params - {"environments"})["ephemeral" := Bool(true)])] == ShadowOfStart(cfg).fields;
  }

  /** A relay that has not seen initialize forwards the thread start at once. */
  lemma StartRun(cfg: Config, scope: Option<Scope>)
    ensures Run(cfg, Initial(scope), [ClientText(Some(START))]) == Next(AfterStart(cfg, scope))
  {
    hide Rewrite, ShadowRequest, RequestRoute, Rewritten, ShadowOfStart;
    var s0 := Initial(scope);
    assert [ClientText(Some(START))][..0] == [] && Run(cfg, s0, []) == Next(s0);
    RewriteStart(cfg);
    ShadowStart(cfg);
    RewrittenFields(cfg);
    assert Forward(cfg, s0, Held(Rewritten(cfg), ThreadStart)) == Next(AfterStart(cfg, scope)) by {
      assert map[][FirstId(cfg) := NewEntryOf(cfg)] == map[FirstId(cfg) := NewEntryOf(cfg)];
    }
    assert LoopTail(cfg, AfterStart(cfg, scope)) == Next(AfterStart(cfg, scope));
  }

  lemma RewrittenFields(cfg: Config)
    ensures Method(Rewritten(cfg)) == Some("thread/start") && Field(Rewritten(cfg), "id") == Some(Num(1))
  {
  }

  /** Nothing to merge and nothing ready: the end of the turn does nothing. */
  predicate Idle(s: State) {
    s.localInit.None? && !s.initSent
  }

  lemma IdleTail(cfg: Config, s: State)
    requires Idle(s)
    ensures LoopTail(cfg, s) == Next(s)
  {
  }

  lemma FirstIdIsShadow(cfg: Config)
    ensures FirstId(cfg) != Ids.HostInitializeId(cfg.environmentId)
  {
    Ids.InternalIdsDiffer(cfg.environmentId, Ids.Metadata(1), Ids.HostInitialize);
  }

  lemma ReplyFacts(cfg: Config, paths: seq<string>)
    requires |paths| <= MAX_INSTRUCTION_SOURCES
    ensures var v := SourcesReply(cfg, paths);
            && StringField(v, "id") == Some(FirstId(cfg)) && !HasError(v) && HasId(v, FirstId(cfg))
            && InstructionPaths(v) == paths
  {
    hide InstructionPaths, Texts, FirstId;
    PathsOfReply(cfg, paths);
  }

  lemma ReplyStarts(cfg: Config, s: State, paths: seq<string>)
    requires FirstId(cfg) in s.pending && !s.pending[FirstId(cfg)].localSent
    requires 0 < |paths| <= MAX_INSTRUCTION_SOURCES
    ensures var id, v := FirstId(cfg), SourcesReply(cfg, paths);
            var s1 := s.(pending := s.pending[id := s.pending[id].(hostResponse := Some(v), paths := paths)]);
            HandleThreadReply(s, id, v) == Next(IssueReads(s1, id, paths, |paths|))
  {
    hide IssueReads, InstructionPaths, FirstId, SourcesReply, HasId, HasError, StringField, SendLocal;
    ReplyFacts(cfg, paths);
  }

  /** A turn with a successful host reply that lists sources, while entry FirstId waits. */
  lemma ReplyTurn(cfg: Config, s: State, paths: seq<string>)
    requires Idle(s) && s.pending.Keys == {FirstId(cfg)} && !s.pending[FirstId(cfg)].localSent
    requires 0 < |paths| <= MAX_INSTRUCTION_SOURCES
    ensures var id, v := FirstId(cfg), SourcesReply(cfg, paths);
            var s1 := s.(pending := s.pending[id := s.pending[id].(hostResponse := Some(v), paths := paths)]);
            && Enabled(s, HostLine(Some(v), [id]))
            && Handle(cfg, s, HostLine(Some(v), [id])) == Next(IssueReads(s1, id, paths, |paths|))
  {
    hide IssueReads, InstructionPaths, LoopTail, FirstId, SourcesReply, HasId, HasError, StringField, Ids.HostInitializeId,
         HandleThreadReply, HandleReadReply, HostMessageAllowed, FindReader;
    var id, v := FirstId(cfg), SourcesReply(cfg, paths);
    ReplyFacts(cfg, paths);
    ReplyStarts(cfg, s, paths);
    FirstIdIsShadow(cfg);
    var s1 := s.(pending := s.pending[id := s.pending[id].(hostResponse := Some(v), paths := paths)]);
    IssueReadsFrame(s1, id, paths, |paths|);
    IdleTail(cfg, IssueReads(s1, id, paths, |paths|));
  }

  function Replies(cfg: Config, paths: seq<string>, n: nat): seq<Event> {
    if n == 0 then [ClientText(Some(START))]
    else Replies(cfg, paths, n - 1) + [HostLine(Some(SourcesReply(cfg, paths)), [FirstId(cfg)])]
  }

  lemma ReplyRun(cfg: Config, scope: Option<Scope>, paths: seq<string>)
    requires 0 < |paths| <= MAX_INSTRUCTION_SOURCES
    ensures Run(cfg, Initial(scope), Replies(cfg, paths, 1)) == Next(AfterReply(cfg, scope, paths))
  {
    hide Handle, Run, IssueReads, Enabled, FirstId;
    StartRun(cfg, scope);
    assert Replies(cfg, paths, 0) == [ClientText(Some(START))];
    RunLast(cfg, Initial(scope), Replies(cfg, paths, 0), HostLine(Some(SourcesReply(cfg, paths)), [FirstId(cfg)]));
    ReplyTurn(cfg, AfterStart(cfg, scope), paths);
    var s := AfterStart(cfg, scope);
    assert s.pending[FirstId(cfg) := s.pending[FirstId(cfg)].(hostResponse := Some(SourcesReply(cfg, paths)), paths := paths)]
        == Heard(cfg, scope, paths).pending;
  }

  /** As long as the host goes on listing sources for a thread start instead of delivering them, the thread start
      waits: its local request is never sent, however often the host replies. */
  lemma {:induction false} WaitsForever(cfg: Config, scope: Option<Scope>, paths: seq<string>, n: nat)
    requires 0 < |paths| <= MAX_INSTRUCTION_SOURCES
    ensures var r := Run(cfg, Initial(scope), Replies(cfg, paths, n));
            && r.Next? && Unsent(r.state, FirstId(cfg))
            && Idle(r.state) && r.state.pending.Keys == {FirstId(cfg)}
            && (n > 0 ==> r.state.pending[FirstId(cfg)].hostResponse.Some?
                          && Restarts(HostLine(Some(SourcesReply(cfg, paths)), [FirstId(cfg)]), FirstId(cfg),
                                      r.state.pending[FirstId(cfg)]))
  {
    hide Handle, Run, IssueReads, Enabled, FirstId, InstructionPaths, Texts;
    var id := FirstId(cfg);
    if n == 0 {
      StartRun(cfg, scope);
    } else {
      WaitsForever(cfg, scope, paths, n - 1);
      var s := Run(cfg, Initial(scope), Replies(cfg, paths, n - 1)).state;
      RunLast(cfg, Initial(scope), Replies(cfg, paths, n - 1), HostLine(Some(SourcesReply(cfg, paths)), [id]));
      ReplyTurn(cfg, s, paths);
      var s1 := s.(pending := s.pending[id := s.pending[id].(hostResponse := Some(SourcesReply(cfg, paths)), paths := paths)]);
      IssueReadsFrame(s1, id, paths, |paths|);
      IssueReadsEntry(s1, id, paths, |paths|);
      PathsOfReply(cfg, paths);
    }
  }

  // ---- The reads of the first reply -------------------------------------------------------------------

  function ReadIds(cfg: Config, n: nat): seq<string> {
    seq(n, i requires 0 <= i < n => Ids.ReadId(FirstId(cfg), i))
  }

  lemma ReadIdsDiffer(cfg: Config, i: nat, j: nat)
    requires i != j
    ensures Ids.ReadId(FirstId(cfg), i) != Ids.ReadId(FirstId(cfg), j)
  {
    Ids.InternalIdsDiffer(cfg.environmentId, Ids.Read(1, i), Ids.Read(1, j));
  }

  /** Read i asks for source i, and there are no other reads. */
  lemma {:induction false} ReadsIssued(cfg: Config, scope: Option<Scope>, paths: seq<string>, k: nat)
    requires k <= |paths|
    ensures var out := IssueReads(Heard(cfg, scope, paths), FirstId(cfg), paths, k).pending[FirstId(cfg)].outstanding;
            && (forall i: nat :: i < k ==> Ids.ReadId(FirstId(cfg), i) in out && out[Ids.ReadId(FirstId(cfg), i)] == paths[i])
            && (forall r :: r in out ==> exists i: nat :: i < k && r == Ids.ReadId(FirstId(cfg), i))
  {
    hide ReadRequest, Ids.ReadId, FirstId, SourcesReply, NewEntryOf, IssueReads;
    IssuedNone(Heard(cfg, scope, paths), FirstId(cfg), paths);
    if k > 0 {
      ReadsIssued(cfg, scope, paths, k - 1);
      var id := FirstId(cfg);
      IssuedOne(Heard(cfg, scope, paths), id, paths, k);
      var before := IssueReads(Heard(cfg, scope, paths), id, paths, k - 1).pending[id].outstanding;
      var out := IssueReads(Heard(cfg, scope, paths), id, paths, k).pending[id].outstanding;
      assert out == before[Ids.ReadId(id, k - 1) := paths[k - 1]];
      forall i: nat | i < k ensures Ids.ReadId(id, i) in out && out[Ids.ReadId(id, i)] == paths[i] {
        if i < k - 1 {
          ReadIdsDiffer(cfg, i, k - 1);
        }
      }
    } else {
      assert Heard(cfg, scope, paths).pending[FirstId(cfg)].outstanding == map[] by { HeardEntry(cfg, scope, paths); }
    }
  }

  lemma HeardEntry(cfg: Config, scope: Option<Scope>, paths: seq<string>)
    ensures Heard(cfg, scope, paths).pending[FirstId(cfg)]
         == NewEntryOf(cfg).(hostResponse := Some(SourcesReply(cfg, paths)), paths := paths)
    ensures NewEntryOf(cfg).outstanding == map[] && NewEntryOf(cfg).contents == map[] && !NewEntryOf(cfg).localSent
  {
  }

  function EntryAfter(cfg: Config, scope: Option<Scope>, paths: seq<string>): (p: Pending)
  {
    AfterReply(cfg, scope, paths).pending[FirstId(cfg)]
  }

  /** The entry when the sources have been asked for: no text yet, and one read for each source. */
  lemma EntryAfterIs(cfg: Config, scope: Option<Scope>, paths: seq<string>)
    ensures var p := EntryAfter(cfg, scope, paths);
            && p == NewEntryOf(cfg).(hostResponse := Some(SourcesReply(cfg, paths)), paths := paths, outstanding := p.outstanding)
            && (forall i: nat :: i < |paths| ==>
                  Ids.ReadId(FirstId(cfg), i) in p.outstanding && p.outstanding[Ids.ReadId(FirstId(cfg), i)] == paths[i])
            && (forall r :: r in p.outstanding ==> exists i: nat :: i < |paths| && r == Ids.ReadId(FirstId(cfg), i))
  {
    hide IssueReads, FirstId, SourcesReply, NewEntryOf, Ids.ReadId;
    HeardEntry(cfg, scope, paths);
    ReadsIssued(cfg, scope, paths, |paths|);
    IssueReadsEntry(Heard(cfg, scope, paths), FirstId(cfg), paths, |paths|);
  }

  /** What holds of the reached state because it was reached. */
  lemma AfterReplyReached(cfg: Config, scope: Option<Scope>, paths: seq<string>)
    requires 0 < |paths| <= MAX_INSTRUCTION_SOURCES
    ensures var s := AfterReply(cfg, scope, paths);
            && ThreadInv(cfg, s) && RelayDispatch.QueueInv(cfg, s) && |Shadows(s.out)| <= U64_MAX
            && Unsent(s, FirstId(cfg)) && Lists([FirstId(cfg)], s.pending.Keys)
  {
    hide Run, ThreadInv, WireThreads, RelayDispatch.QueueInv, Shadows, AfterReply, RelayDispatch.Received, FirstId, RelayDispatch.Forwarded;
    ReplyRun(cfg, scope, paths);
    ThreadStartsAccounted(cfg, scope, Replies(cfg, paths, 1));
    RelayDispatch.FirstInFirstOut(cfg, scope, Replies(cfg, paths, 1));
    FewShadows(cfg, scope, paths);
    EntryWaits(cfg, scope, paths);
  }

  lemma FewShadows(cfg: Config, scope: Option<Scope>, paths: seq<string>)
    ensures |Shadows(AfterReply(cfg, scope, paths).out)| <= U64_MAX
  {
    hide IssueReads, FirstId, Rewritten, ShadowOfStart;
    IssueReadsFrame(Heard(cfg, scope, paths), FirstId(cfg), paths, |paths|);
    EmitsSelect(Heard(cfg, scope, paths).out, AfterReply(cfg, scope, paths).out, {ToHostRead}, SHADOWS);
    assert |Shadows(Heard(cfg, scope, paths).out)| <= 1 by { OneShadow(Heard(cfg, scope, paths).out); }
  }

  lemma OneShadow(out: seq<Sent>)
    requires |out| == 1
    ensures |Shadows(out)| <= 1
  {
    assert Select(out[..0], SHADOWS) == [];
  }

  lemma EntryWaits(cfg: Config, scope: Option<Scope>, paths: seq<string>)
    ensures Unsent(AfterReply(cfg, scope, paths), FirstId(cfg))
    ensures AfterReply(cfg, scope, paths).pending.Keys == {FirstId(cfg)}
  {
    hide IssueReads, FirstId;
    IssueReadsEntry(Heard(cfg, scope, paths), FirstId(cfg), paths, |paths|);
  }

  // ---- The order of the replies -------------------------------------------------------------------------

  /** From here on, all orders of all replies lead to the same end of the run. */
  ghost predicate RunsAgree(cfg: Config, s: State, id: string, hash: seq<string>)
    requires id in s.pending
  {
    forall order, other, replies :: Complete(s.pending[id], order, replies) && Complete(s.pending[id], other, replies) ==>
      Run(cfg, s, ReplyEvents(order, replies, hash)) == Run(cfg, s, ReplyEvents(other, replies, hash))
  }

  lemma SendLocalTells(cfg: Config, s: State, id: string, p: Pending, q: Pending)
    requires id in s.pending && EntryMid(id, p) && !p.localSent && !q.localSent
    requires SendLocal(WithEntry(s, id, p), id) == SendLocal(WithEntry(s, id, q), id)
    ensures p == q
  {
    hide ReadsOf, WithinBudget, Sections, Instructions;
    var a := SendLocal(WithEntry(s, id, p), id);
    assert a.Next? && a.state.pending[id] == p.(localSent := true);
  }

  /** For every list of sources of the first host reply: all orders of all replies to the reads lead to the same
      run exactly when no source is listed twice. */
  lemma RunsAgreeExactly(cfg: Config, scope: Option<Scope>, paths: seq<string>, long: string, short: string)
    requires 0 < |paths| <= MAX_INSTRUCTION_SOURCES && Carries(cfg, long, 1) && Carries(cfg, short, 0)
    ensures FirstId(cfg) in AfterReply(cfg, scope, paths).pending
    ensures RunsAgree(cfg, AfterReply(cfg, scope, paths), FirstId(cfg), [FirstId(cfg)]) <==> !Repeats(paths)
  {
    hide AfterReply, Run, Gather, ThreadInv, RelayDispatch.QueueInv, Shadows, SendLocal, WithEntry, FirstId, Ids.ReadId, HasId,
         TextBytes, NewEntryOf, SourcesReply, Repeats;
    var s, id := AfterReply(cfg, scope, paths), FirstId(cfg);
    AfterReplyReached(cfg, scope, paths);
    EntryAfterIs(cfg, scope, paths);
    HeardEntry(cfg, scope, paths);
    var p := s.pending[id];
    NoTexts();
    assert FreshPaths(p) && TextBytes(p.contents) == 0;
    OrderIrrelevantWhenFresh(cfg, p, long, short);
    SharesExactly(cfg, scope, paths);
    if !Repeats(paths) {
      assert OrderIrrelevant(cfg, p);
      forall order, other, replies | Complete(p, order, replies) && Complete(p, other, replies)
        ensures Run(cfg, s, ReplyEvents(order, replies, [id])) == Run(cfg, s, ReplyEvents(other, replies, [id]))
      {
        CompleteRuns(cfg, s, id, order, replies, |paths|);
        CompleteRuns(cfg, s, id, other, replies, |paths|);
      }
    } else {
      var order, other, replies :| Complete(p, order, replies) && Complete(p, other, replies)
                                   && Gather(cfg, p, order, replies) != Gather(cfg, p, other, replies);
      CompleteRuns(cfg, s, id, order, replies, |paths|);
      CompleteRuns(cfg, s, id, other, replies, |paths|);
      DifferentGatherDiffers(cfg, s, id, order, other, replies);
    }
  }

  lemma CompleteRuns(cfg: Config, s: State, id: string, order: seq<string>, replies: map<string, Json>, n: nat)
    requires ThreadInv(cfg, s) && RelayDispatch.QueueInv(cfg, s) && |Shadows(s.out)| <= U64_MAX
    requires Unsent(s, id) && Lists([id], s.pending.Keys) && Complete(s.pending[id], order, replies)
    requires n > 0 && Ids.ReadId(id, 0) in s.pending[id].outstanding
    ensures Answering(s.pending[id], order, replies)
    ensures var g := Gather(cfg, s.pending[id], order, replies);
            && Run(cfg, s, ReplyEvents(order, replies, [id])) == (if g.None? then Failed(s.out) else SendLocal(WithEntry(s, id, g.value), id))
            && (g.Some? ==> EntryMid(id, g.value) && !g.value.localSent)
  {
    hide Run, Gather, ThreadInv, RelayDispatch.QueueInv, Shadows, SendLocal, WithEntry, Ids.ReadId, EntryMid;
    assert Ids.ReadId(id, 0) in order;
    AllRepliesRun(cfg, s, id, order, replies, [id]);
    GatheredMid(cfg, s, id, order, replies);
  }

  lemma DifferentGatherDiffers(cfg: Config, s: State, id: string, order: seq<string>, other: seq<string>, replies: map<string, Json>)
    requires id in s.pending && Answering(s.pending[id], order, replies) && Answering(s.pending[id], other, replies)
    requires var g, h := Gather(cfg, s.pending[id], order, replies), Gather(cfg, s.pending[id], other, replies);
             && g != h
             && (g.Some? ==> EntryMid(id, g.value) && !g.value.localSent) && (h.Some? ==> EntryMid(id, h.value) && !h.value.localSent)
    ensures var g, h := Gather(cfg, s.pending[id], order, replies), Gather(cfg, s.pending[id], other, replies);
            (if g.None? then Failed(s.out) else SendLocal(WithEntry(s, id, g.value), id))
            != (if h.None? then Failed(s.out) else SendLocal(WithEntry(s, id, h.value), id))
  {
    hide Gather, Answering, EntryMid, SendLocal;
    var g, h := Gather(cfg, s.pending[id], order, replies), Gather(cfg, s.pending[id], other, replies);
    if g.Some? {
      SendLocalSucceeds(s, id, g.value);
    }
    if h.Some? {
      SendLocalSucceeds(s, id, h.value);
    }
    if g.Some? && h.Some? && SendLocal(WithEntry(s, id, g.value), id) == SendLocal(WithEntry(s, id, h.value), id) {
      SendLocalTells(cfg, s, id, g.value, h.value);
    }
  }

  lemma SendLocalSucceeds(s: State, id: string, p: Pending)
    requires EntryMid(id, p) && !p.localSent
    ensures SendLocal(WithEntry(s, id, p), id).Next?
  {
    hide ReadsOf, WithinBudget, Sections, Instructions;
  }

  lemma SharesExactly(cfg: Config, scope: Option<Scope>, paths: seq<string>)
    ensures (exists r, q :: SharesPath(EntryAfter(cfg, scope, paths), r, q)) <==> Repeats(paths)
  {
    hide EntryAfter, Ids.ReadId, FirstId, NewEntryOf, SourcesReply;
    EntryAfterIs(cfg, scope, paths);
    var p := EntryAfter(cfg, scope, paths);
    if exists r, q :: SharesPath(p, r, q) {
      var r, q :| SharesPath(p, r, q);
      var i: nat :| i < |paths| && r == Ids.ReadId(FirstId(cfg), i);
      var j: nat :| j < |paths| && q == Ids.ReadId(FirstId(cfg), j);
      assert paths[i] == paths[j] && i != j;
    }
    if Repeats(paths) {
      var i: nat, j: nat :| i < j < |paths| && paths[i] == paths[j];
      ReadIdsDiffer(cfg, i, j);
      assert SharesPath(p, Ids.ReadId(FirstId(cfg), i), Ids.ReadId(FirstId(cfg), j));
    }
  }

  // ---- Requests past the limit -------------------------------------------------------------------------

  /** Read m delivers text when it is for source i, or for source k and that is another one. */
  predicate Delivering(paths: seq<string>, i: nat, k: nat, m: nat)
    requires i < |paths| && k < |paths|
  {
    m == i || (m == k && paths[k] != paths[i])
  }

  function PlanReply(cfg: Config, paths: seq<string>, i: nat, k: nat, data: string, m: nat): Json
    requires i < |paths| && k < |paths|
  {
    var read := Ids.ReadId(FirstId(cfg), m);
    if Delivering(paths, i, k, m) then IdReply(read, data) else NoData(read)
  }

  function PlanReplies(cfg: Config, paths: seq<string>, i: nat, k: nat, data: string, n: nat): map<string, Json>
    requires i < |paths| && k < |paths|
  {
    if n == 0 then map[]
    else
      PlanReplies(cfg, paths, i, k, data, n - 1)[Ids.ReadId(FirstId(cfg), n - 1) := PlanReply(cfg, paths, i, k, data, n - 1)]
  }

  lemma {:induction false} PlanRepliesAt(cfg: Config, paths: seq<string>, i: nat, k: nat, data: string, n: nat)
    requires i < |paths| && k < |paths|
    ensures var replies := PlanReplies(cfg, paths, i, k, data, n);
            forall m: nat :: m < n ==>
              && Ids.ReadId(FirstId(cfg), m) in replies
              && replies[Ids.ReadId(FirstId(cfg), m)] == PlanReply(cfg, paths, i, k, data, m)
  {
    hide Ids.ReadId, FirstId, PlanReply;
    if n > 0 {
      PlanRepliesAt(cfg, paths, i, k, data, n - 1);
      forall m: nat | m < n - 1 ensures Ids.ReadId(FirstId(cfg), m) != Ids.ReadId(FirstId(cfg), n - 1) {
        ReadIdsDiffer(cfg, m, n - 1);
      }
    }
  }

  /** The texts stored once the first n reads are answered. */
  function PlanContents(paths: seq<string>, i: nat, k: nat, text: string, n: nat): map<string, string>
    requires i < |paths| && k < |paths|
  {
    (if i < n then map[paths[i] := text] else map[]) + (if k < n && paths[k] != paths[i] then map[paths[k] := text] else map[])
  }

  lemma PlanContentsNext(paths: seq<string>, i: nat, k: nat, text: string, n: nat)
    requires i < |paths| && k < |paths| && n < |paths|
    ensures PlanContents(paths, i, k, text, n + 1)
         == if Delivering(paths, i, k, n) then PlanContents(paths, i, k, text, n)[paths[n] := text] else PlanContents(paths, i, k, text, n)
  {
    var before, after := PlanContents(paths, i, k, text, n), PlanContents(paths, i, k, text, n + 1);
    if n == i {
      assert after == before[paths[n] := text];
    } else if n == k && paths[k] != paths[i] {
      assert after == before[paths[n] := text];
    } else {
      assert after == before;
    }
  }

  lemma PlanFits(paths: seq<string>, i: nat, k: nat, text: string, n: nat)
    requires i < |paths| && k < |paths| && |text| <= MAX_INSTRUCTION_SOURCE_BYTES
    ensures var held := TextBytes(PlanContents(paths, i, k, text, n));
            && held <= MAX_INSTRUCTION_TOTAL_BYTES
            && (Delivering(paths, i, k, n) ==> held + |text| <= MAX_INSTRUCTION_TOTAL_BYTES)
  {
    hide TextBytes;
    NoTexts();
    TextBytesUpdate(map[], paths[i], text);
    TextBytesUpdate(map[], paths[k], text);
    TextBytesUpdate(map[paths[i] := text], paths[k], text);
    assert map[][paths[i] := text] == map[paths[i] := text] && map[][paths[k] := text] == map[paths[k] := text];
    assert map[paths[i] := text] + map[paths[k] := text] == map[paths[i] := text][paths[k] := text];
    var contents := PlanContents(paths, i, k, text, n);
    assert contents == map[] || contents == map[paths[i] := text] || contents == map[paths[k] := text]
        || contents == map[paths[i] := text][paths[k] := text];
    assert Delivering(paths, i, k, n) ==> contents == map[] || contents == map[paths[i] := text] || contents == map[paths[k] := text];
  }

  lemma PlanReplyIs(cfg: Config, paths: seq<string>, i: nat, k: nat, data: string, m: nat)
    requires i < |paths| && k < |paths| && Carries(cfg, data, MAX_INSTRUCTION_SOURCE_BYTES)
    ensures var v := PlanReply(cfg, paths, i, k, data, m);
            && HasId(v, Ids.ReadId(FirstId(cfg), m)) && Readable(cfg, v)
            && TextOf(cfg, v) == if Delivering(paths, i, k, m) then cfg.decodeBase64(data) else None
  {
    hide Ids.ReadId, FirstId;
    IdReplyIs(cfg, Ids.ReadId(FirstId(cfg), m), data, MAX_INSTRUCTION_SOURCE_BYTES);
    NoDataIs(Ids.ReadId(FirstId(cfg), m));
  }

  lemma PlanAnswers(cfg: Config, scope: Option<Scope>, paths: seq<string>, i: nat, k: nat, data: string, n: nat)
    requires i < |paths| && k < |paths| && n <= |paths| && Carries(cfg, data, MAX_INSTRUCTION_SOURCE_BYTES)
    ensures var p, order := EntryAfter(cfg, scope, paths), ReadIds(cfg, n);
            var replies := PlanReplies(cfg, paths, i, k, data, |paths|);
            && Answering(p, order, replies) && (forall r :: r in order ==> HasId(replies[r], r))
            && (n == |paths| ==> Complete(p, order, replies))
  {
    hide Ids.ReadId, FirstId, EntryAfter, PlanReplies, PlanReply, NewEntryOf, SourcesReply, HasId;
    EntryAfterIs(cfg, scope, paths);
    PlanRepliesAt(cfg, paths, i, k, data, |paths|);
    var order, replies := ReadIds(cfg, n), PlanReplies(cfg, paths, i, k, data, |paths|);
    forall r | r in order
      ensures r in EntryAfter(cfg, scope, paths).outstanding && r in replies && HasId(replies[r], r)
    {
      var m :| 0 <= m < n && order[m] == r;
      PlanReplyIs(cfg, paths, i, k, data, m);
    }
    forall a, b | 0 <= a < b < |order| ensures order[a] != order[b] {
      ReadIdsDiffer(cfg, a, b);
    }
    forall m: nat | m < n ensures Ids.ReadId(FirstId(cfg), m) in order {
      assert order[m] == Ids.ReadId(FirstId(cfg), m);
    }
  }

  lemma {:induction false} PlanGathers(cfg: Config, scope: Option<Scope>, paths: seq<string>, i: nat, k: nat, data: string, n: nat)
    requires i < |paths| && k < |paths| && n <= |paths| && Carries(cfg, data, MAX_INSTRUCTION_SOURCE_BYTES)
    ensures Answering(EntryAfter(cfg, scope, paths), ReadIds(cfg, n), PlanReplies(cfg, paths, i, k, data, |paths|))
    ensures var p := EntryAfter(cfg, scope, paths);
            var g := Gather(cfg, p, ReadIds(cfg, n), PlanReplies(cfg, paths, i, k, data, |paths|));
            && g.Some?
            && g.value == p.(outstanding := g.value.outstanding,
                             contents := PlanContents(paths, i, k, cfg.decodeBase64(data).value, n))
  {
    hide Ids.ReadId, FirstId, EntryAfter, PlanReplies, PlanReply, PlanContents, NewEntryOf, SourcesReply, HasId, TextBytes,
         Readable, TextOf, Gather, RecordRead, Delivering, Answering;
    var p, text := EntryAfter(cfg, scope, paths), cfg.decodeBase64(data).value;
    var replies := PlanReplies(cfg, paths, i, k, data, |paths|);
    PlanAnswers(cfg, scope, paths, i, k, data, n);
    EntryAfterIs(cfg, scope, paths);
    HeardEntry(cfg, scope, paths);
    if n == 0 {
      NothingGathered(cfg, p, replies);
      assert PlanContents(paths, i, k, text, 0) == map[] by { PlanBegins(paths, i, k, text); }
    } else {
      PlanGathers(cfg, scope, paths, i, k, data, n - 1);
      var last := Ids.ReadId(FirstId(cfg), n - 1);
      assert ReadIds(cfg, n) == ReadIds(cfg, n - 1) + [last];
      GatherLast(cfg, p, ReadIds(cfg, n - 1), last, replies);
      PlanRepliesAt(cfg, paths, i, k, data, |paths|);
      PlanReplyIs(cfg, paths, i, k, data, n - 1);
      PlanFits(paths, i, k, text, n - 1);
      PlanContentsNext(paths, i, k, text, n - 1);
      var before := Gather(cfg, p, ReadIds(cfg, n - 1), replies).value;
      assert before.outstanding[last] == paths[n - 1] by { StillAwaited(cfg, p, ReadIds(cfg, n - 1), replies, last); }
      RecordLast(cfg, p, before, last, replies[last], before.contents);
    }
  }

  lemma StillAwaited(cfg: Config, p: Pending, order: seq<string>, replies: map<string, Json>, last: string)
    requires Answering(p, order, replies) && Gather(cfg, p, order, replies).Some?
    requires last in Gather(cfg, p, order, replies).value.outstanding
    ensures last in p.outstanding && Gather(cfg, p, order, replies).value.outstanding[last] == p.outstanding[last]
  {
    hide Gather;
    assert Gather(cfg, p, order, replies).value.outstanding == p.outstanding - Elems(order);
  }

  lemma NothingGathered(cfg: Config, p: Pending, replies: map<string, Json>)
    ensures Answering(p, ReadIds(cfg, 0), replies) && Gather(cfg, p, ReadIds(cfg, 0), replies) == Some(p)
  {
  }

  lemma PlanBegins(paths: seq<string>, i: nat, k: nat, text: string)
    requires i < |paths| && k < |paths|
    ensures PlanContents(paths, i, k, text, 0) == map[]
    ensures PlanContents(paths, i, k, text, |paths|) == LargeContents(paths, i, k, text)
  {
  }

  lemma {:induction false} RunAppend(cfg: Config, s: State, first: seq<Event>, later: seq<Event>)
    requires Run(cfg, s, first).Next?
    ensures Run(cfg, s, first + later) == Run(cfg, Run(cfg, s, first).state, later)
    decreases |later|
  {
    hide Handle, Enabled;
    if later == [] {
      assert first + later == first;
    } else {
      var n := |later| - 1;
      RunAppend(cfg, s, first, later[..n]);
      assert (first + later)[..|first| + n] == first + later[..n];
    }
  }

  lemma SendLocalLast(cfg: Config, s: State, id: string, p: Pending)
    requires EntryMid(id, p) && !p.localSent
    ensures LocalRequest(p).Some?
    ensures var r := SendLocal(WithEntry(s, id, p), id);
            r.Next? && r.state.out == s.out + [LocalStart(id, LocalRequest(p).value)]
  {
    hide ReadsOf, WithinBudget, Sections, Instructions;
  }

  /** The start, the list of sources, and the replies to the first n reads. */
  function PlanEvents(cfg: Config, paths: seq<string>, i: nat, k: nat, data: string, n: nat): seq<Event>
    requires i < |paths| && k < |paths|
    requires forall r :: r in ReadIds(cfg, n) ==> r in PlanReplies(cfg, paths, i, k, data, |paths|)
  {
    Replies(cfg, paths, 1) + ReplyEvents(ReadIds(cfg, n), PlanReplies(cfg, paths, i, k, data, |paths|), [FirstId(cfg)])
  }

  lemma PlanStep(cfg: Config, scope: Option<Scope>, paths: seq<string>, i: nat, k: nat, data: string, n: nat)
    requires i < |paths| && k < |paths| && n == |paths| - 1 && |paths| <= MAX_INSTRUCTION_SOURCES
    requires Carries(cfg, data, MAX_INSTRUCTION_SOURCE_BYTES)
    ensures var replies, last := PlanReplies(cfg, paths, i, k, data, |paths|), Ids.ReadId(FirstId(cfg), n);
            && (forall r :: r in ReadIds(cfg, n + 1) ==> r in replies)
            && (forall r :: r in ReadIds(cfg, n) ==> r in replies)
            && last in replies && HasId(replies[last], last)
            && PlanEvents(cfg, paths, i, k, data, n + 1)
               == PlanEvents(cfg, paths, i, k, data, n) + [HostLine(Some(replies[last]), [FirstId(cfg)])]
  {
    hide Ids.ReadId, FirstId, PlanReplies, HasId, EntryAfter;
    PlanAnswers(cfg, scope, paths, i, k, data, n);
    PlanAnswers(cfg, scope, paths, i, k, data, n + 1);
    assert ReadIds(cfg, n + 1) == ReadIds(cfg, n) + [Ids.ReadId(FirstId(cfg), n)];
    assert ReadIds(cfg, n + 1)[n] == Ids.ReadId(FirstId(cfg), n);
  }

  /** One reply before the end, the relay still waits, and has sent nothing since. */
  lemma PlanWaits(cfg: Config, scope: Option<Scope>, paths: seq<string>, i: nat, k: nat, data: string, n: nat)
    requires i < |paths| && k < |paths| && n == |paths| - 1 && |paths| <= MAX_INSTRUCTION_SOURCES
    requires Carries(cfg, data, MAX_INSTRUCTION_SOURCE_BYTES)
    ensures var s, id, replies := AfterReply(cfg, scope, paths), FirstId(cfg), PlanReplies(cfg, paths, i, k, data, |paths|);
            && id in s.pending && Answering(s.pending[id], ReadIds(cfg, n), replies)
            && var g := Gather(cfg, s.pending[id], ReadIds(cfg, n), replies);
              && g.Some? && Ids.ReadId(id, n) in g.value.outstanding
              && Run(cfg, Initial(scope), PlanEvents(cfg, paths, i, k, data, n)) == Next(WithEntry(s, id, g.value))
  {
    hide Run, AfterReply, Gather, ThreadInv, RelayDispatch.QueueInv, Shadows, WithEntry, FirstId, Ids.ReadId, NewEntryOf,
         SourcesReply, PlanReplies, PlanContents, HasId, TextBytes, Unsent;
    var s, id, replies := AfterReply(cfg, scope, paths), FirstId(cfg), PlanReplies(cfg, paths, i, k, data, |paths|);
    AfterReplyReached(cfg, scope, paths);
    EntryAfterIs(cfg, scope, paths);
    PlanAnswers(cfg, scope, paths, i, k, data, n);
    PlanGathers(cfg, scope, paths, i, k, data, n);
    NotYetRead(cfg, n);
    RepliesRun(cfg, s, id, ReadIds(cfg, n), replies, [id]);
    ReplyRun(cfg, scope, paths);
    RunAppend(cfg, Initial(scope), Replies(cfg, paths, 1), ReplyEvents(ReadIds(cfg, n), replies, [id]));
  }

  lemma NotYetRead(cfg: Config, n: nat)
    ensures Ids.ReadId(FirstId(cfg), n) !in ReadIds(cfg, n)
  {
    hide Ids.ReadId, FirstId;
    forall m | 0 <= m < n ensures ReadIds(cfg, n)[m] != Ids.ReadId(FirstId(cfg), n) {
      ReadIdsDiffer(cfg, m, n);
    }
  }

  lemma ReadIsNotFirst(cfg: Config, n: nat)
    ensures Ids.ReadId(FirstId(cfg), n) != FirstId(cfg)
  {
    Ids.InternalIdsDiffer(cfg.environmentId, Ids.Read(1, n), Ids.Metadata(1));
  }

  /** The last reply makes of the entry what gathering all of them makes of it. */
  lemma PlanEntry(cfg: Config, s: State, id: string, order: seq<string>, last: string, replies: map<string, Json>)
    requires id in s.pending && Answering(s.pending[id], order + [last], replies) && Answering(s.pending[id], order, replies)
    requires Gather(cfg, s.pending[id], order, replies).Some? && last in replies && HasId(replies[last], last) && last != id
    ensures var before := WithEntry(s, id, Gather(cfg, s.pending[id], order, replies).value);
            && id in before.pending
            && RelayCauses.EntryAt(cfg, before, HostLine(Some(replies[last]), [id]), id)
               == Gather(cfg, s.pending[id], order + [last], replies)
  {
    hide Gather, RecordRead;
    GatherLast(cfg, s.pending[id], order, last, replies);
  }

  lemma PlanRun(cfg: Config, scope: Option<Scope>, paths: seq<string>, i: nat, j: nat, k: nat, data: string)
    requires |paths| <= MAX_INSTRUCTION_SOURCES && Carries(cfg, data, MAX_INSTRUCTION_SOURCE_BYTES)
    requires i < j < |paths| && paths[i] == paths[j] && k < |paths| && k != i && k != j
    ensures exists events, at :: RelayRequests.Oversized(cfg, Initial(scope), events, at, paths)
  {
    hide Run, AfterReply, Gather, ThreadInv, RelayDispatch.QueueInv, Shadows, SendLocal, WithEntry, FirstId, Ids.ReadId, NewEntryOf,
         SourcesReply, PlanReplies, PlanContents, InjectedBytes, EntryMid, LocalRequest, TextBytes, LargeContents, HasId, PlanEvents,
         RelayCauses.EntryAt, RelayRequests.RequestAt, Answering, Complete;
    var n := |paths| - 1;
    var s, id, replies := AfterReply(cfg, scope, paths), FirstId(cfg), PlanReplies(cfg, paths, i, k, data, |paths|);
    PlanStep(cfg, scope, paths, i, k, data, n);
    PlanWaits(cfg, scope, paths, i, k, data, n);
    PlanSends(cfg, scope, paths, i, j, k, data);
    var order, last := ReadIds(cfg, n), Ids.ReadId(id, n);
    assert ReadIds(cfg, |paths|) == order + [last];
    ReadIsNotFirst(cfg, n);
    PlanEntry(cfg, s, id, order, last, replies);
    var events := PlanEvents(cfg, paths, i, k, data, |paths|);
    var g := Gather(cfg, s.pending[id], ReadIds(cfg, |paths|), replies).value;
    var e := HostLine(Some(replies[last]), [id]);
    var before := WithEntry(s, id, Gather(cfg, s.pending[id], order, replies).value);
    assert before.out == s.out by { EntryOnly(s, id, Gather(cfg, s.pending[id], order, replies).value); }
    LastRequest(cfg, scope, PlanEvents(cfg, paths, i, k, data, n), e, before, id, g);
    assert RelayRequests.Oversized(cfg, Initial(scope), events, |s.out|, paths) by {
      assert RelayRequests.RequestAt(cfg, Initial(scope), events, |s.out|, |events| - 1, g);
    }
  }

  lemma EntryOnly(s: State, id: string, p: Pending)
    ensures WithEntry(s, id, p).out == s.out
  {
  }

  /** With all replies in, the local request is the last frame, and is past the limit. */
  lemma PlanSends(cfg: Config, scope: Option<Scope>, paths: seq<string>, i: nat, j: nat, k: nat, data: string)
    requires |paths| <= MAX_INSTRUCTION_SOURCES && Carries(cfg, data, MAX_INSTRUCTION_SOURCE_BYTES)
    requires i < j < |paths| && paths[i] == paths[j] && k < |paths| && k != i && k != j
    requires forall r :: r in ReadIds(cfg, |paths|) ==> r in PlanReplies(cfg, paths, i, k, data, |paths|)
    ensures var s, id, replies := AfterReply(cfg, scope, paths), FirstId(cfg), PlanReplies(cfg, paths, i, k, data, |paths|);
            && id in s.pending && Answering(s.pending[id], ReadIds(cfg, |paths|), replies)
            && var g := Gather(cfg, s.pending[id], ReadIds(cfg, |paths|), replies);
              && g.Some? && g.value.paths == paths && LocalRequest(g.value).Some?
              && InjectedBytes(paths, g.value.contents) > MAX_INSTRUCTION_TOTAL_BYTES
              && var r := Run(cfg, Initial(scope), PlanEvents(cfg, paths, i, k, data, |paths|));
                r.Next? && r.state.out == s.out + [LocalStart(id, LocalRequest(g.value).value)]
  {
    hide Run, AfterReply, Gather, ThreadInv, RelayDispatch.QueueInv, Shadows, SendLocal, WithEntry, FirstId, Ids.ReadId, NewEntryOf,
         SourcesReply, PlanReplies, PlanContents, InjectedBytes, EntryMid, LocalRequest, TextBytes, LargeContents, HasId;
    var s, id, text := AfterReply(cfg, scope, paths), FirstId(cfg), cfg.decodeBase64(data).value;
    var order, replies := ReadIds(cfg, |paths|), PlanReplies(cfg, paths, i, k, data, |paths|);
    AfterReplyReached(cfg, scope, paths);
    EntryAfterIs(cfg, scope, paths);
    HeardEntry(cfg, scope, paths);
    PlanAnswers(cfg, scope, paths, i, k, data, |paths|);
    PlanGathers(cfg, scope, paths, i, k, data, |paths|);
    PlanBegins(paths, i, k, text);
    LargeOversizes(paths, i, j, k, text);
    CompleteRuns(cfg, s, id, order, replies, |paths|);
    SendLocalLast(cfg, s, id, Gather(cfg, s.pending[id], order, replies).value);
    ReplyRun(cfg, scope, paths);
    RunAppend(cfg, Initial(scope), Replies(cfg, paths, 1), ReplyEvents(order, replies, [id]));
  }

  /** A turn that sends the local request of entry id and nothing else was caused by its event. */
  lemma LastRequest(cfg: Config, scope: Option<Scope>, events: seq<Event>, e: Event, s: State, id: string, p: Pending)
    requires Run(cfg, Initial(scope), events) == Next(s) && id in s.pending
    requires RelayCauses.EntryAt(cfg, s, e, id) == Some(p) && LocalRequest(p).Some?
    requires var r := Run(cfg, Initial(scope), events + [e]);
             r.Next? && r.state.out == s.out + [LocalStart(id, LocalRequest(p).value)]
    ensures RelayRequests.RequestAt(cfg, Initial(scope), events + [e], |s.out|, |events|, p)
  {
    hide Handle, Enabled, RelayCauses.EntryAt, LocalRequest, RelayCauses.Cause;
    var all := events + [e];
    assert all[..|events|] == events && all[..|events| + 1] == all && all[|events|] == e;
    RelayCauses.TurnCaused(cfg, s, e);
    assert RelayCauses.CausedBy(cfg, Initial(scope), all, |events|, |s.out|);
    RelayRequests.RequestCaused(cfg, scope, all, |s.out|, |events|);
  }

  /** For every list of sources a host can have in force: some run sends a local request past the limit for it exactly
      when there are at least three sources and one is listed twice. */
  lemma OversizedRunExactly(cfg: Config, scope: Option<Scope>, paths: seq<string>, data: string)
    requires |paths| <= MAX_INSTRUCTION_SOURCES && Carries(cfg, data, MAX_INSTRUCTION_SOURCE_BYTES)
    ensures (exists events, at :: RelayRequests.Oversized(cfg, Initial(scope), events, at, paths)) <==> |paths| >= 3 && Repeats(paths)
  {
    hide RelayRequests.Oversized;
    if exists events, at :: RelayRequests.Oversized(cfg, Initial(scope), events, at, paths) {
      var events, at :| RelayRequests.Oversized(cfg, Initial(scope), events, at, paths);
      RelayRequests.OversizedRepeats(cfg, scope, events, at, paths);
    }
    if |paths| >= 3 && Repeats(paths) {
      var i: nat, j: nat :| i < j < |paths| && paths[i] == paths[j];
      PlanRun(cfg, scope, paths, i, j, ThirdOf(i, j), data);
    }
  }

  // ---- Registration that goes back ----------------------------------------------------------------------

  const INITIALIZE: Json := Obj(map["id" := Num(1), "method" := Str("initialize")])
  const ANSWER: Json := Obj(map["id" := Num(1), "result" := Obj(map[])])

  function Answer(id: string): Event {
    ServerText(Some(Obj(map["id" := Str(id)])), [], true)
  }

  function ReadyAnswer(cfg: Config): Event {
    ServerText(Some(Obj(map["id" := Str(Ids.StatusId(cfg.environmentId)), "result" := Obj(map["status" := Str("ready")])])), [], true)
  }

  /** initialize, its answer, the answers to environment/add and environment/status. */
  function BecomingReady(cfg: Config): seq<Event> {
    [ClientText(Some(INITIALIZE)), ServerText(Some(ANSWER), [], true), Answer(Ids.AddId(cfg.environmentId)), ReadyAnswer(cfg)]
  }

  lemma InitializeTurn(cfg: Config, scope: Option<Scope>)
    ensures var r := Handle(cfg, Initial(scope), ClientText(Some(INITIALIZE)));
            && r.Next? && r.state == Initial(scope).(initializeId := Some(Num(1)), out := r.state.out)
  {
    hide Ids.HostInitializeId;
  }

  lemma AnswerTurn(cfg: Config, s: State)
    requires s.initializeId == Some(Num(1)) && s.phase == WaitingForInitialize && s.pending == map[]
    requires s.hostInit.None? && Idle(s)
    ensures var r := Handle(cfg, s, ServerText(Some(ANSWER), [], true));
            && r.Next? && r.state == s.(phase := Registering, localInit := Some(ANSWER), out := r.state.out)
  {
    hide AddRequest, Ids.AddId, Ids.StatusId;
  }

  lemma AddTurn(cfg: Config, s: State)
    ensures var r := Handle(cfg, s, Answer(Ids.AddId(cfg.environmentId)));
            && r.Next? && r.state == s.(phase := Polling(1), out := r.state.out)
  {
    hide StatusRequest, Ids.AddId, Ids.StatusId;
  }

  lemma ReadyTurn(cfg: Config, s: State)
    requires !s.initSent
    ensures Handle(cfg, s, ReadyAnswer(cfg)) == Next(s.(phase := Ready))
  {
    hide Ids.AddId, Ids.StatusId;
    Ids.InternalIdsDiffer(cfg.environmentId, Ids.EnvironmentAdd, Ids.EnvironmentStatus);
  }

  /** A run in which the environment becomes ready, and a further answer to environment/add takes that back. */
  lemma GoesBack(cfg: Config, scope: Option<Scope>)
    ensures var ready := Run(cfg, Initial(scope), BecomingReady(cfg));
            var back := Run(cfg, Initial(scope), BecomingReady(cfg) + [Answer(Ids.AddId(cfg.environmentId))]);
            && ready.Next? && ready.state.phase == Ready
            && back.Next? && back.state.phase == Polling(1)
            && RelayRegistration.Rank(back.state.phase) < RelayRegistration.Rank(ready.state.phase)
  {
    hide Handle, Run, Answer, ReadyAnswer;
    var s0 := Initial(scope);
    var e0, e1 := ClientText(Some(INITIALIZE)), ServerText(Some(ANSWER), [], true);
    var e2, e3 := Answer(Ids.AddId(cfg.environmentId)), ReadyAnswer(cfg);
    assert Run(cfg, s0, []) == Next(s0) by { EmptyRun(cfg, s0); }
    RunLast(cfg, s0, [], e0);
    RunLast(cfg, s0, [e0], e1);
    RunLast(cfg, s0, [e0, e1], e2);
    RunLast(cfg, s0, [e0, e1, e2], e3);
    RunLast(cfg, s0, [e0, e1, e2, e3], e2);
    assert [] + [e0] == [e0] && [e0] + [e1] == [e0, e1] && [e0, e1] + [e2] == [e0, e1, e2];
    assert [e0, e1, e2] + [e3] == BecomingReady(cfg);
    InitializeTurn(cfg, scope);
    var s1 := Handle(cfg, s0, e0).state;
    AnswerTurn(cfg, s1);
    var s2 := Handle(cfg, s1, e1).state;
    AddTurn(cfg, s2);
    var s3 := Handle(cfg, s2, e2).state;
    ReadyTurn(cfg, s3);
    AddTurn(cfg, s3.(phase := Ready));
    assert Enabled(s3, e3) && Enabled(s2, e2) && Enabled(s3.(phase := Ready), e2) by { AnswersEnabled(cfg, s2, s3); }
  }

  lemma EmptyRun(cfg: Config, s: State)
    ensures Run(cfg, s, []) == Next(s)
  {
  }

  lemma AnswersEnabled(cfg: Config, a: State, b: State)
    requires a.pending == map[] && b.pending == map[]
    ensures Enabled(b, ReadyAnswer(cfg)) && Enabled(a, Answer(Ids.AddId(cfg.environmentId)))
    ensures Enabled(b.(phase := Ready), Answer(Ids.AddId(cfg.environmentId)))
  {
  }
}
