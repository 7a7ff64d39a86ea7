/** Every waiting thread/start makes progress with each reply meant for it, until it is sent. */
module RelayProgress {
  import opened Wrappers
  import opened Json
  import opened RelaySpec
  import opened RelayFrames
  import opened RelayThreads
  import Ids

  const FULL_NEED: nat := MAX_INSTRUCTION_SOURCES + 1

  /** How many more replies an entry can absorb before its request goes out. */
  function Need(p: Pending): nat {
    if p.localSent then 0
    else if p.hostResponse.None? then FULL_NEED
    else |p.outstanding|
  }

  /** The host answers the shadow of entry id. */
  predicate AnswersShadow(e: Event, id: string) {
    e.HostLine? && e.line.Some? && HasId(e.line.value, id)
  }

  /** The host answers one of the reads that p waits for. */
  predicate AnswersRead(e: Event, p: Pending) {
    e.HostLine? && e.line.Some? && StringField(e.line.value, "id").Some?
    && StringField(e.line.value, "id").value in p.outstanding
  }

  predicate Concerns(e: Event, id: string, p: Pending) {
    AnswersShadow(e, id) || AnswersRead(e, p) || (e.Expiry? && id in e.expired)
  }

  /** A further successful host reply to the same shadow that lists instruction sources: they are read again. */
  predicate Restarts(e: Event, id: string, p: Pending) {
    AnswersShadow(e, id) && !HasError(e.line.value) && p.hostResponse.Some? && InstructionPaths(e.line.value) != []
  }

  predicate Kept(s: State, s': State, id: string) {
    id in s.pending && id in s'.pending && s'.pending[id] == s.pending[id]
  }

  /** Entry id has moved on by at least one reply. */
  predicate Advanced(s: State, s': State, id: string) {
    id in s.pending && id in s'.pending && Need(s'.pending[id]) < Need(s.pending[id])
  }

  /** What a turn does to a waiting entry: it leaves it alone when it does not concern it, and otherwise advances
      it unless it has the sources read again. */
  ghost predicate Moved(s: State, e: Event, s': State, id: string) {
    Unsent(s, id) ==>
      if Concerns(e, id, s.pending[id]) then Advanced(s, s', id) <==> !Restarts(e, id, s.pending[id])
      else Kept(s, s', id)
  }

  // ---- Forwarding leaves waiting entries alone -----------------------------------------------

  lemma {:induction false} ShadowsGrow(before: seq<Sent>, after: seq<Sent>)
    requires before <= after
    ensures |Shadows(before)| <= |Shadows(after)|
    decreases |after|
  {
    if |after| > |before| {
      ShadowsGrow(before, after[..|after| - 1]);
    } else {
      assert after == before;
    }
  }

  lemma {:induction false} StartsGrow(before: seq<Sent>, after: seq<Sent>, id: string)
    requires before <= after
    ensures StartsFor(before, id) <= StartsFor(after, id)
    decreases |after|
  {
    if |after| > |before| {
      StartsGrow(before, after[..|after| - 1], id);
    } else {
      assert after == before;
    }
  }

  lemma ForwardKeeps(cfg: Config, s: State, m: Held, id: string)
    requires ThreadInv(cfg, s) && id in s.pending
    requires Forward(cfg, s, m).Next? && |Shadows(Forward(cfg, s, m).state.out)| <= U64_MAX
    ensures Kept(s, Forward(cfg, s, m).state, id)
  {
    hide ShadowRequest, Ids.MetadataId, EntryInv, Numbered, Select, StartsFor;
    var r := Forward(cfg, s, m);
    if m.route.ThreadStart? {
      var n := |Shadows(s.out)|;
      var frame := Shadow(Ids.MetadataId(cfg.environmentId, NextSequence(s.sequence)), m.message,
                          ShadowRequest(m.message, Ids.MetadataId(cfg.environmentId, NextSequence(s.sequence))).value);
      assert r.state.out == s.out + [frame];
      SelectAppend(s.out, frame, SHADOWS);
      FreshId(cfg, n);
    }
  }

  lemma {:induction false} DrainKeeps(cfg: Config, s: State, id: string)
    requires ThreadInv(cfg, s) && id in s.pending
    requires Drain(cfg, s).Next? && |Shadows(Drain(cfg, s).state.out)| <= U64_MAX
    ensures Kept(s, Drain(cfg, s).state, id)
    decreases |s.queue|
  {
    hide Forward, ThreadInv, Shadows, WireThreads;
    if s.queue != [] {
      var s1 := Dequeued(cfg, s);
      DequeuedThreads(cfg, s);
      var step := Forward(cfg, s1, s.queue[0]);
      ForwardThreads(cfg, s1, s.queue[0]);
      DrainFrame(cfg, step.state);
      ShadowsGrow(step.state.out, Drain(cfg, s).state.out);
      ForwardKeeps(cfg, s1, s.queue[0], id);
      DrainKeeps(cfg, step.state, id);
    }
  }

  lemma TailKeeps(cfg: Config, s: State, id: string)
    requires ThreadInv(cfg, s) && id in s.pending
    requires LoopTail(cfg, s).Next? && |Shadows(LoopTail(cfg, s).state.out)| <= U64_MAX
    ensures Kept(s, LoopTail(cfg, s).state, id)
  {
    hide SendInitialize, Drain, ThreadInv, Shadows, WireThreads;
    SendInitializeFrame(cfg, s);
    var step := SendInitialize(cfg, s);
    QuietThreads(cfg, s, step, {ToClientInitialize});
    if IsReady(step.state) {
      DrainKeeps(cfg, step.state, id);
    }
  }

  // ---- Replies -------------------------------------------------------------------------------

  lemma {:induction false} IssueReadsSize(s: State, id: string, paths: seq<string>, k: nat)
    requires id in s.pending && k <= |paths|
    ensures |IssueReads(s, id, paths, k).pending[id].outstanding| <= |s.pending[id].outstanding| + k
  {
    hide ReadRequest, Ids.ReadId;
    if k > 0 {
      IssueReadsSize(s, id, paths, k - 1);
      var before, after := IssueReads(s, id, paths, k - 1).pending[id].outstanding, IssueReads(s, id, paths, k).pending[id].outstanding;
      assert after.Keys == before.Keys + {Ids.ReadId(id, k - 1)};
    }
  }

  lemma {:induction false} IssueReadsKeep(s: State, id: string, paths: seq<string>, k: nat)
    requires id in s.pending && k <= |paths|
    ensures |s.pending[id].outstanding| <= |IssueReads(s, id, paths, k).pending[id].outstanding|
  {
    hide ReadRequest, Ids.ReadId;
    if k > 0 {
      IssueReadsKeep(s, id, paths, k - 1);
      var before, after := IssueReads(s, id, paths, k - 1).pending[id].outstanding, IssueReads(s, id, paths, k).pending[id].outstanding;
      assert after.Keys == before.Keys + {Ids.ReadId(id, k - 1)};
      assert before.Keys <= after.Keys;
    }
  }

  /** The host's answer to shadow k, as entry id sees it. */
  lemma ThreadReplyProgress(cfg: Config, s: State, k: string, v: Json, id: string)
    requires ThreadInv(cfg, s) && k in s.pending && Unsent(s, id)
    ensures var r := HandleThreadReply(s, k, v);
            r.Next? ==>
              && (k != id ==> Kept(s, r.state, id))
              && (k == id ==>
                    && id in r.state.pending
                    && (Advanced(s, r.state, id)
                        <==> HasError(v) || s.pending[id].hostResponse.None? || InstructionPaths(v) == []))
  {
    hide SendLocal, IssueReads, InstructionPaths, ThreadInv, ReadsOf, WithinBudget, ObjectField;
    var entry, paths := s.pending[k], InstructionPaths(v);
    EntryOf(cfg, s, k);
    EntryOf(cfg, s, id);
    assert Need(s.pending[id]) > 0;
    var p := entry.(hostResponse := Some(v), paths := paths);
    var s1 := s.(pending := s.pending[k := p]);
    InvIsMid(cfg, s, k);
    UpdatedMid(cfg, s, k, p);
    if HasError(v) {
      SendLocalThreads(cfg, s, k);
    } else if !entry.localSent {
      if paths == [] {
        SendLocalThreads(cfg, s1, k);
      } else {
        IssueReadsThreads(cfg, s1, k, paths, |paths|);
        IssueReadsSize(s1, k, paths, |paths|);
        IssueReadsKeep(s1, k, paths, |paths|);
      }
    }
  }

  lemma ReadReplyProgress(cfg: Config, s: State, k: string, readId: string, v: Json, id: string)
    requires ThreadInv(cfg, s) && k in s.pending && readId in s.pending[k].outstanding && Unsent(s, id)
    ensures var r := HandleReadReply(cfg, s, k, readId, v);
            r.Next? ==> if k == id then Advanced(s, r.state, id) else Kept(s, r.state, id)
  {
    hide SendLocal, RecordRead, ThreadInv, EntryMid;
    var entry := s.pending[k];
    EntryOf(cfg, s, k);
    EntryOf(cfg, s, id);
    RecordedMid(cfg, k, entry, readId, v);
    assert entry.hostResponse.Some? by { ReadsNeedReply(k, entry, readId); }
    var recorded := RecordRead(cfg, entry, readId, v);
    if recorded.Some? {
      var s1 := s.(pending := s.pending[k := recorded.value]);
      UpdatedMid(cfg, s, k, recorded.value);
      assert entry.outstanding.Keys == recorded.value.outstanding.Keys + {readId};
      if recorded.value.outstanding == map[] {
        SendLocalThreads(cfg, s1, k);
      }
    }
  }

  lemma ReadsNeedReply(id: string, p: Pending, readId: string)
    requires EntryInv(id, p) && readId in p.outstanding
    ensures p.hostResponse.Some?
  {
  }

  /** A read belongs to one entry, and its id is neither a shadow's nor host-initialize. */
  lemma ReaderUnique(cfg: Config, s: State, readId: string, id: string, other: string)
    requires ThreadInv(cfg, s) && |Shadows(s.out)| <= U64_MAX
    requires id in s.pending && readId in s.pending[id].outstanding
    requires other in s.pending && readId in s.pending[other].outstanding
    ensures other == id
  {
    hide Numbered, StartsFor, WithinBudget, Select, Ids.Decimal, Ids.MetadataPrefix, ObjectField;
    var i: nat :| i < MAX_INSTRUCTION_SOURCES && readId == Ids.ReadId(id, i);
    var j: nat :| j < MAX_INSTRUCTION_SOURCES && readId == Ids.ReadId(other, j);
    var m: nat :| id == Ids.MetadataId(cfg.environmentId, m);
    var n: nat :| other == Ids.MetadataId(cfg.environmentId, n);
    Ids.InternalIdsDistinct(cfg.environmentId, Ids.Read(m, i), Ids.Read(n, j));
  }

  lemma ReadIdIsNoShadow(cfg: Config, s: State, readId: string, id: string)
    requires ThreadInv(cfg, s) && |Shadows(s.out)| <= U64_MAX
    requires id in s.pending && readId in s.pending[id].outstanding
    ensures readId !in s.pending && readId != Ids.HostInitializeId(cfg.environmentId)
  {
    hide Numbered, StartsFor, WithinBudget, Select, Ids.Decimal, Ids.MetadataPrefix, ObjectField;
    var i: nat :| i < MAX_INSTRUCTION_SOURCES && readId == Ids.ReadId(id, i);
    var m: nat :| id == Ids.MetadataId(cfg.environmentId, m);
    if readId in s.pending {
      var n: nat :| readId == Ids.MetadataId(cfg.environmentId, n);
      Ids.InternalIdsDistinct(cfg.environmentId, Ids.Read(m, i), Ids.Metadata(n));
    }
    if readId == Ids.HostInitializeId(cfg.environmentId) {
      Ids.InternalIdsDistinct(cfg.environmentId, Ids.Read(m, i), Ids.HostInitialize);
    }
  }

  lemma ShadowIsNotInitialize(cfg: Config, s: State, id: string)
    requires ThreadInv(cfg, s) && |Shadows(s.out)| <= U64_MAX && id in s.pending
    ensures id != Ids.HostInitializeId(cfg.environmentId)
  {
    hide Numbered, StartsFor, EntryInv, Select;
    var m: nat :| id == Ids.MetadataId(cfg.environmentId, m);
    if id == Ids.HostInitializeId(cfg.environmentId) {
      Ids.InternalIdsDistinct(cfg.environmentId, Ids.Metadata(m), Ids.HostInitialize);
    }
  }

  lemma HostMessageProgress(cfg: Config, s: State, v: Json, order: seq<string>, id: string)
    requires ThreadInv(cfg, s) && Unsent(s, id) && Lists(order, s.pending.Keys) && |Shadows(s.out)| <= U64_MAX
    ensures var r := HandleHostMessage(cfg, s, v, order);
            var e := HostLine(Some(v), order);
            r.Next? ==> id in r.state.pending && Moved(s, e, r.state, id)
  {
    hide HandleThreadReply, HandleReadReply, HostMessageAllowed, ThreadInv, Shadows, Need, InstructionPaths;
    var vid := StringField(v, "id");
    ShadowIsNotInitialize(cfg, s, id);
    if vid.Some? && vid.value in s.pending[id].outstanding {
      ReadIdIsNoShadow(cfg, s, vid.value, id);
    }
    if vid.Some? && vid.value != Ids.HostInitializeId(cfg.environmentId) {
      if vid.value in s.pending {
        ThreadReplyProgress(cfg, s, vid.value, v, id);
      } else {
        var reader := FindReader(order, s.pending, vid.value);
        if reader.Some? {
          ReadReplyProgress(cfg, s, reader.value, vid.value, v, id);
          if vid.value in s.pending[id].outstanding {
            ReaderUnique(cfg, s, vid.value, id, reader.value);
          }
        }
      }
    }
  }

  // ---- One turn ------------------------------------------------------------------------------

  lemma TailMoved(cfg: Config, s: State, e: Event, r: Step, id: string)
    requires ThreadOutcome(cfg, r) && Unsent(s, id)
    requires r.Next? ==> Moved(s, e, r.state, id) && id in r.state.pending
    ensures var t := ThenTail(cfg, r); t.Next? && |Shadows(t.state.out)| <= U64_MAX ==> Moved(s, e, t.state, id)
  {
    hide LoopTail, ThreadInv, Shadows, WireThreads;
    var t := ThenTail(cfg, r);
    if t.Next? && |Shadows(t.state.out)| <= U64_MAX {
      TailKeeps(cfg, r.state, id);
    }
  }

  lemma ServerMessageKeeps(cfg: Config, s: State, v: Json, order: seq<string>, saveWorks: bool, id: string)
    requires Unsent(s, id)
    ensures var r := HandleServerMessage(cfg, s, v, order, saveWorks); r.Next? ==> Kept(s, r.state, id)
  {
    hide HandleStartAnswer, FilterThreadList, AddRequest;
    var answered := FindAnswered(order, s.pending, v);
    if !IsInitializeResponse(s, v) && answered.Some? {
      StartAnswerFrame(s, answered.value, v, saveWorks);
    }
  }

  lemma ClientTextKeeps(cfg: Config, s: State, text: Option<Json>, id: string)
    requires ThreadInv(cfg, s) && id in s.pending
    ensures var r := HandleClientText(cfg, s, text);
            r.Next? && |Shadows(r.state.out)| <= U64_MAX ==> Kept(s, r.state, id)
  {
    hide Rewrite, Forward, ThreadInv, Shadows, RequestRoute;
    if text.Some? && Rewrite(cfg, text.value).Some? {
      var m := Rewrite(cfg, text.value).value;
      var verb := Method(m);
      var s1 := s.(listIds := if verb == Some("thread/list") && Field(m, "id").Some?
                              then s.listIds + {Field(m, "id").value} else s.listIds);
      QuietThreads(cfg, s, Next(s1), {});
      var r := HandleClientText(cfg, s, text);
      if verb != Some("initialize") && GateOpen(s1) && r.Next? && |Shadows(r.state.out)| <= U64_MAX {
        ForwardKeeps(cfg, s1, Held(m, RequestRoute(cfg, verb)), id);
      }
    }
  }

  lemma StatusKeeps(cfg: Config, s: State, v: Json, id: string)
    requires ThreadInv(cfg, s) && id in s.pending
    ensures var r := HandleStatus(cfg, s, v);
            r.Next? && |Shadows(r.state.out)| <= U64_MAX ==> Kept(s, r.state, id)
  {
    hide Drain, StatusReady, StatusRequest, ThreadInv, Shadows;
    var s1 := s.(phase := Ready);
    QuietThreads(cfg, s, Next(s1), {});
    var r := HandleStatus(cfg, s, v);
    if StatusReady(v) == Some(true) && s.initSent && r.Next? && |Shadows(r.state.out)| <= U64_MAX {
      DrainKeeps(cfg, s1, id);
    }
  }

  lemma ExpiryMoved(cfg: Config, s: State, e: Event, id: string)
    requires ThreadInv(cfg, s) && e.Expiry? && Enabled(s, e) && Unsent(s, id)
    ensures var r := SendExpired(s, e.expired); r.Next? ==> Moved(s, e, r.state, id) && id in r.state.pending
  {
    hide SendExpired, ThreadInv;
    SendExpiredThreads(cfg, s, e.expired);
    EntryOf(cfg, s, id);
  }

  /** A turn leaves every waiting entry that it does not concern as it was, and advances one that it concerns
      exactly unless it is a further successful host reply that lists sources. */
  lemma ProgressTurn(cfg: Config, s: State, e: Event, id: string)
    requires ThreadInv(cfg, s) && Enabled(s, e) && Unsent(s, id) && |Shadows(s.out)| <= U64_MAX
    ensures var r := Handle(cfg, s, e);
            r.Next? && |Shadows(r.state.out)| <= U64_MAX ==> Moved(s, e, r.state, id)
  {
    hide LoopTail, HandleHostMessage, HandleServerMessage, HandleClientText, RecordOwned, SendExpired,
         HandleStatus, BeginStatusPoll, ThreadInv, Shadows, Need, ThreadOutcome;
    match e
    case ClientText(text) =>
      var r := HandleClientText(cfg, s, text);
      ClientTextThreads(cfg, s, text);
      ClientTextKeeps(cfg, s, text, id);
      if r.Next? && LoopTail(cfg, r.state).Next? {
        LoopTailFrame(cfg, r.state);
        ShadowsGrow(r.state.out, LoopTail(cfg, r.state).state.out);
        if |Shadows(r.state.out)| <= U64_MAX {
          TailMoved(cfg, s, e, r, id);
        }
      }
    case ServerText(text, order, saveWorks) =>
      if text.Some? {
        if IsAddResponse(cfg, text.value) {
          StatusPollFrame(cfg, s, text.value);
        } else if IsStatusResponse(cfg, text.value) {
          StatusKeeps(cfg, s, text.value, id);
        } else {
          ServerMessageThreads(cfg, s, text.value, order, saveWorks);
          ServerMessageKeeps(cfg, s, text.value, order, saveWorks, id);
          TailMoved(cfg, s, e, HandleServerMessage(cfg, s, text.value, order, saveWorks), id);
        }
      }
    case ClientOther(frame) =>
      QuietThreads(cfg, s, Next(Send(s, ServerFrame(frame))), {ToServerFrame});
      TailMoved(cfg, s, e, Next(Send(s, ServerFrame(frame))), id);
    case ServerOther(frame) =>
      QuietThreads(cfg, s, Next(Send(s, ClientFrame(frame))), {ToClientFrame});
      TailMoved(cfg, s, e, Next(Send(s, ClientFrame(frame))), id);
    case HostLine(line, order) =>
      if line.Some? {
        HostMessageThreads(cfg, s, line.value, order);
        HostMessageProgress(cfg, s, line.value, order, id);
        TailMoved(cfg, s, e, HandleHostMessage(cfg, s, line.value, order), id);
      }
    case Gone =>
    case Broken =>
    case Expiry(expired) =>
      SendExpiredThreads(cfg, s, expired);
      ExpiryMoved(cfg, s, e, id);
      TailMoved(cfg, s, e, SendExpired(s, expired), id);
    case ScopeElsewhere(response, saveWorks) =>
      RecordFrame(s, response, saveWorks);
  }

  // ---- Over all runs ---------------------------------------------------------------------------

  /** How many events of the run concerned entry id while it was waiting. */
  ghost function Attended(cfg: Config, s: State, events: seq<Event>, id: string): nat {
    if events == [] then 0
    else
      var before, e := Run(cfg, s, events[..|events| - 1]), events[|events| - 1];
      Attended(cfg, s, events[..|events| - 1], id)
        + (if before.Next? && Enabled(before.state, e) && Unsent(before.state, id)
              && Concerns(e, id, before.state.pending[id]) then 1 else 0)
  }

  /** The host never has the sources of entry id read again while it waits. */
  ghost predicate NeverRestarted(cfg: Config, s: State, events: seq<Event>, id: string) {
    if events == [] then true
    else
      var before, e := Run(cfg, s, events[..|events| - 1]), events[|events| - 1];
      && NeverRestarted(cfg, s, events[..|events| - 1], id)
      && !(before.Next? && Unsent(before.state, id) && Restarts(e, id, before.state.pending[id]))
  }

  lemma HandleGrows(cfg: Config, s: State, e: Event)
    requires ThreadInv(cfg, s) && Enabled(s, e)
    ensures s.out <= Trace(Handle(cfg, s, e))
  {
    hide LoopTail, HandleHostMessage, HandleServerMessage, HandleClientText, RecordOwned, SendExpired,
         HandleStatus, BeginStatusPoll, ThreadInv;
    match e
    case ClientText(text) =>
      ClientTextFrame(cfg, s, text);
      TailGrows(cfg, s, HandleClientText(cfg, s, text));
    case ServerText(text, order, saveWorks) =>
      if text.Some? {
        StatusPollFrame(cfg, s, text.value);
        StatusFrame(cfg, s, text.value);
        ServerMessageFrame(cfg, s, text.value, order, saveWorks);
        TailGrows(cfg, s, HandleServerMessage(cfg, s, text.value, order, saveWorks));
      }
    case ClientOther(frame) => TailGrows(cfg, s, Next(Send(s, ServerFrame(frame))));
    case ServerOther(frame) => TailGrows(cfg, s, Next(Send(s, ClientFrame(frame))));
    case HostLine(line, order) =>
      if line.Some? {
        HostMessageFrame(cfg, s, line.value, order);
        TailGrows(cfg, s, HandleHostMessage(cfg, s, line.value, order));
      }
    case Gone =>
    case Broken =>
    case Expiry(expired) =>
      SendExpiredFrame(s, expired);
      TailGrows(cfg, s, SendExpired(s, expired));
    case ScopeElsewhere(response, saveWorks) =>
      RecordFrame(s, response, saveWorks);
  }

  lemma ClientTextFrame(cfg: Config, s: State, text: Option<Json>)
    ensures s.out <= Trace(HandleClientText(cfg, s, text))
  {
    hide AcceptClientText, Rewrite;
    if text.Some? && Rewrite(cfg, text.value).Some? {
      AcceptFrame(cfg, s, Rewrite(cfg, text.value).value);
    }
  }

  lemma TailGrows(cfg: Config, s: State, r: Step)
    requires s.out <= Trace(r)
    ensures s.out <= Trace(ThenTail(cfg, r))
  {
    hide LoopTail;
    if r.Next? {
      LoopTailFrame(cfg, r.state);
    }
  }

  /** An entry waits through at most FULL_NEED events that concern it: each one lowers the measure,
      and nothing but a further host reply that lists sources keeps or raises it. */
  lemma {:induction false} WaitsBounded(cfg: Config, s: State, events: seq<Event>, id: string)
    requires ThreadInv(cfg, s) && Unsent(s, id)
    requires Run(cfg, s, events).Next? && |Shadows(Run(cfg, s, events).state.out)| <= U64_MAX
    requires NeverRestarted(cfg, s, events, id)
    ensures var s' := Run(cfg, s, events).state;
            && ThreadInv(cfg, s') && s.out <= s'.out
            && (Unsent(s', id) ==>
                  Attended(cfg, s, events, id) + Need(s'.pending[id]) <= Need(s.pending[id]))
            && (Attended(cfg, s, events, id) >= Need(s.pending[id]) ==> !Unsent(s', id) && StartsFor(s'.out, id) == 1)
  {
    hide Handle, ThreadInv, Shadows, Need, WireThreads, Concerns, Restarts;
    if events == [] {
      assert Need(s.pending[id]) > 0 by { UnsentNeeds(cfg, s, id); }
    } else {
      var init, e := events[..|events| - 1], events[|events| - 1];
      var before, after := Run(cfg, s, init), Run(cfg, s, events);
      RunGrows(cfg, s, events, id);
      WaitsBounded(cfg, s, init, id);
      if Enabled(before.state, e) {
        ThreadTurn(cfg, before.state, e);
        if Unsent(before.state, id) {
          ProgressTurn(cfg, before.state, e, id);
        }
      }
      if !Unsent(before.state, id) {
        SettledStays(cfg, before.state, after.state, s, id);
      }
      if Unsent(after.state, id) {
        UnsentNeeds(cfg, after.state, id);
      }
      SettledSent(cfg, s, after.state, id);
    }
  }

  lemma UnsentNeeds(cfg: Config, s: State, id: string)
    requires ThreadInv(cfg, s) && Unsent(s, id)
    ensures Need(s.pending[id]) > 0
  {
    EntryOf(cfg, s, id);
  }

  lemma RunGrows(cfg: Config, s: State, events: seq<Event>, id: string)
    requires ThreadInv(cfg, s) && events != [] && Run(cfg, s, events).Next?
    requires |Shadows(Run(cfg, s, events).state.out)| <= U64_MAX
    requires Unsent(s, id) && NeverRestarted(cfg, s, events, id)
    ensures var before := Run(cfg, s, events[..|events| - 1]);
            && before.Next?
            && |Shadows(before.state.out)| <= U64_MAX
            && before.state.out <= Run(cfg, s, events).state.out
  {
    hide Handle, ThreadInv, Shadows;
    var init, e := events[..|events| - 1], events[|events| - 1];
    var before := Run(cfg, s, init);
    RunInv(cfg, s, init);
    if Enabled(before.state, e) {
      HandleGrows(cfg, before.state, e);
    }
    ShadowsGrow(before.state.out, Run(cfg, s, events).state.out);
  }

  lemma {:induction false} RunInv(cfg: Config, s: State, events: seq<Event>)
    requires ThreadInv(cfg, s)
    ensures Run(cfg, s, events).Next? ==> ThreadInv(cfg, Run(cfg, s, events).state)
  {
    hide Handle, ThreadInv, WireThreads;
    if events != [] {
      var init, e := events[..|events| - 1], events[|events| - 1];
      RunInv(cfg, s, init);
      var before := Run(cfg, s, init);
      if before.Next? && Enabled(before.state, e) {
        ThreadTurn(cfg, before.state, e);
      }
    }
  }

  /** Once its request has gone out, an entry never waits again. */
  lemma SettledStays(cfg: Config, before: State, after: State, first: State, id: string)
    requires ThreadInv(cfg, first) && ThreadInv(cfg, before) && ThreadInv(cfg, after)
    requires first.out <= before.out <= after.out && |Shadows(after.out)| <= U64_MAX
    requires Unsent(first, id) && !Unsent(before, id)
    ensures !Unsent(after, id)
  {
    SettledSent(cfg, first, before, id) by { ShadowsGrow(before.out, after.out); }
    hide Numbered, EntryInv, Select;
    StartsGrow(before.out, after.out, id);
  }

  lemma SettledSent(cfg: Config, first: State, s: State, id: string)
    requires ThreadInv(cfg, first) && ThreadInv(cfg, s) && first.out <= s.out && |Shadows(s.out)| <= U64_MAX
    requires Unsent(first, id)
    ensures !Unsent(s, id) ==> StartsFor(s.out, id) == 1
  {
    hide Numbered, EntryInv, Select, Ids.MetadataId;
    ShadowsGrow(first.out, s.out);
    var k: nat :| 1 <= k <= |Shadows(first.out)| && id == Ids.MetadataId(cfg.environmentId, k);
    assert Issued(cfg, |Shadows(s.out)|, id);
  }
}
